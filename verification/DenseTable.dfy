/** The table class itself: in-place probe, shift and swap loops. */
module DenseTable {
  import opened Wrappers
  import opened BucketArray
  import opened Bytes
  import opened HashTable

  function SigsOf<K, V>(hash: K -> u64, shifts: nat, vs: seq<(K, V)>): (r: seq<Sig>)
    ensures |r| == |vs|
  {
    seq(|vs|, i requires 0 <= i < |vs| => SigOf(hash(vs[i].0), shifts))
  }

  lemma SigAt<K, V>(hash: K -> u64, shifts: nat, vs: seq<(K, V)>, i: nat)
    requires i < |vs|
    ensures SigsOf(hash, shifts, vs)[i] == SigOf(hash(vs[i].0), shifts)
  {
  }

  lemma NoSigs<K, V>(hash: K -> u64, shifts: nat, vs: seq<(K, V)>)
    requires vs == []
    ensures SigsOf(hash, shifts, vs) == []
  {
  }

  lemma SigsAppend<K, V>(hash: K -> u64, shifts: nat, vs: seq<(K, V)>, k: K, v: V)
    ensures SigsOf(hash, shifts, vs + [(k, v)]) == SigsOf(hash, shifts, vs) + [SigOf(hash(k), shifts)]
  {
  }

  lemma SigsAssign<K, V>(hash: K -> u64, shifts: nat, vs: seq<(K, V)>, i: nat, v: V)
    requires i < |vs|
    ensures SigsOf(hash, shifts, vs[i := (vs[i].0, v)]) == SigsOf(hash, shifts, vs)
  {
  }

  lemma SigsRemove<K, V>(hash: K -> u64, shifts: nat, vs: seq<(K, V)>, i: nat)
    requires i < |vs|
    ensures SigsOf(hash, shifts, SwapRemove(vs, i)) == SwapRemove(SigsOf(hash, shifts, vs), i)
  {
  }

  datatype TableError = BucketOverflow | TooManyElements

  // Probe m of the search for a key meets that key.
  ghost predicate Hit<K, V>(B: seq<Bucket>, vs: seq<(K, V)>, key: K, x: Sig, m: int) {
    var b := At(x.home, m, |B|);
    0 <= b < |B| && B[b].df == ProbeDf(x.fp, m) && B[b].idx < |vs| && vs[B[b].idx].0 == key
  }

  ghost predicate NoHit<K, V>(B: seq<Bucket>, vs: seq<(K, V)>, key: K, x: Sig, j: int) {
    forall m :: 0 <= m < j ==> !Hit(B, vs, key, x, m)
  }

  // Stopping at the first bucket that is closer to its home than the key would
  // be never misses a key.
  lemma MissIsSound<K(!new), V>(B: seq<Bucket>, hash: K -> u64, shifts: nat, vs: seq<(K, V)>, pos: seq<nat>, key: K, j: nat)
    requires WellFormed(B, SigsOf(hash, shifts, vs), pos) && j <= |B|
    requires var x := SigOf(hash(key), shifts);
             && x.home < |B| && NoHit(B, vs, key, x, j)
             && B[At(x.home, j, |B|)].df < ProbeDf(x.fp, j)
    ensures !HasKey(vs, key)
  {
    var x, sig := SigOf(hash(key), shifts), SigsOf(hash, shifts, vs);
    forall i | 0 <= i < |vs| ensures vs[i].0 != key {
      if vs[i].0 == key {
        assert sig[i] == x;
        forall m | 0 <= m < j ensures At(x.home, m, |B|) != pos[i] {
          if At(x.home, m, |B|) == pos[i] {
            assert m < |B|;
            assert Off(x.home, pos[i], |B|) == m;
            assert Hit(B, vs, key, x, m);
          }
        }
        NotYet(B, sig, pos, -1, i, j);
        assert false;
      }
    }
  }

  // Where a probe may place a new key.
  ghost predicate Placeable(B: seq<Bucket>, x: Sig, j: nat) {
    && x.home < |B| && j < |B|
    && B[At(x.home, j, |B|)].df <= ProbeDf(x.fp, j)
    && (j > 0 ==> B[At(x.home, j - 1, |B|)].df >= ProbeDf(x.fp, j - 1))
  }

  class Table<K(==,!new), V> {
    const hash: K -> u64
    var values: seq<(K, V)>
    var buckets: array<Bucket>
    var shifts: nat
    var maxCapacity: nat
    ghost var pos: seq<nat>  // the bucket of each value

    ghost predicate Valid()
      reads this, buckets
    {
      && shifts <= INITIAL_SHIFTS
      && Distinct(values)
      && if buckets.Length == 0
         then values == [] && maxCapacity == 0 && shifts == INITIAL_SHIFTS
         else
           && Sized()
           && |values| <= maxCapacity
           && WellFormed(buckets[..], SigsOf(hash, shifts, values), pos)
    }

    ghost predicate Sized()
      reads this, buckets
    {
      && shifts <= INITIAL_SHIFTS
      && buckets.Length == NumBuckets(shifts)
      && maxCapacity == MaxCapacity(buckets.Length)
      && 4 <= buckets.Length <= MAX_BUCKETS
    }

    ghost function Model(): map<K, V>
      reads this
      requires Distinct(values)
    {
      Dict(values)
    }

    constructor (hash: K -> u64)
      ensures Valid() && values == [] && Model() == map[] && this.hash == hash
    {
      this.hash := hash;
      values := [];
      buckets := new Bucket[0];
      shifts := INITIAL_SHIFTS;
      maxCapacity := 0;
      pos := [];
    }

    // ------------------------------------------------------------ sizing

    // The largest shift (smallest table) that has room for s entries.
    method CalcShiftsForSize(s: nat) returns (r: nat)
      ensures r <= INITIAL_SHIFTS
      ensures r == 0 || Scaled(NumBuckets(r)) >= s
      ensures forall t :: r < t <= INITIAL_SHIFTS ==> Scaled(NumBuckets(t)) < s
    {
      r := INITIAL_SHIFTS;
      while r > 0 && Scaled(NumBuckets(r)) < s
        invariant r <= INITIAL_SHIFTS
        invariant forall t :: r < t <= INITIAL_SHIFTS ==> Scaled(NumBuckets(t)) < s
      {
        r := r - 1;
      }
    }

    method AllocateBucketsFromShift()
      requires shifts <= INITIAL_SHIFTS
      modifies this`buckets, this`maxCapacity
      ensures Sized() && fresh(buckets)
      ensures forall c :: 0 <= c < buckets.Length ==> buckets[c] == EMPTY
    {
      HomeInRange(0, shifts);
      buckets := new Bucket[NumBuckets(shifts)](_ => EMPTY);
      maxCapacity := MaxCapacity(buckets.Length);
    }

    method ClearBuckets()
      modifies buckets
      ensures forall c :: 0 <= c < buckets.Length ==> buckets[c] == EMPTY
    {
      var c := 0;
      while c < buckets.Length
        invariant 0 <= c <= buckets.Length
        invariant forall d :: 0 <= d < c ==> buckets[d] == EMPTY
      {
        buckets[c] := EMPTY;
        c := c + 1;
      }
    }

    // ------------------------------------------------------------ probing loops

    // First bucket from the key's home whose distance is not larger than the
    // key's would be there.
    method NextWhileLess(key: K, ghost sig: seq<Sig>, ghost pos: seq<nat>) returns (df: nat, b: nat, ghost j: nat)
      requires Sized() && WellFormed(buckets[..], sig, pos)
      ensures b < buckets.Length && buckets[b].df <= df
      ensures var x, n := SigOf(hash(key), shifts), buckets.Length;
              && x.home < n && j <= n && (|sig| < n ==> j < n)
              && b == At(x.home, j, n) && df == ProbeDf(x.fp, j)
              && (forall m :: 0 <= m < j ==> buckets[At(x.home, m, n)].df > ProbeDf(x.fp, m))
    {
      hide Indexed, RobinHood, HasStop, MaxCapacity, NumBuckets, HomeOf;
      var h := hash(key);
      HomeInRange(h, shifts);
      ghost var e: nat := buckets.Length;
      if |sig| < buckets.Length {
        e := SomeEmpty(buckets[..], sig, pos);
      }
      df := DIST_INC + h % DIST_INC;
      b := HomeOf(h, shifts);
      j := 0;
      while df < buckets[b].df
        invariant j <= buckets.Length
        invariant e < buckets.Length ==> j <= Off(HomeOf(h, shifts), e, buckets.Length)
        invariant b == At(HomeOf(h, shifts), j, buckets.Length) && b < buckets.Length
        invariant df == ProbeDf(h % DIST_INC, j)
        invariant forall m :: 0 <= m < j ==>
          buckets[At(HomeOf(h, shifts), m, buckets.Length)].df > ProbeDf(h % DIST_INC, m)
        decreases buckets.Length - j
      {
        DistanceBound(buckets[..], sig, pos, -1, b);
        df := df + DIST_INC;
        b := Next(b, buckets.Length);
        j := j + 1;
      }
    }

    // Place a bucket and move the run that is in the way up by one.
    method PlaceAndShiftUp(bucket: Bucket, place: nat, ghost e: nat) returns (ghost s: nat)
      requires place < buckets.Length && e < buckets.Length && buckets[e].df == 0
      modifies buckets
      ensures ShiftedUp(old(buckets[..]), buckets[..], place, s, bucket)
    {
      hide UpSoFar, ShiftedUp;
      var cur, carried := place, bucket;
      s := 0;
      ghost var B0 := buckets[..];
      UpStart(B0, place, bucket);
      while buckets[cur].df != 0
        invariant cur == At(place, s, buckets.Length) < buckets.Length
        invariant s <= Off(place, e, buckets.Length)
        invariant UpSoFar(B0, buckets[..], place, s, bucket, carried)
        decreases Off(place, e, buckets.Length) - s
      {
        ghost var B := buckets[..];
        UpStep(B0, B, place, s, bucket, carried, cur, e);
        carried, buckets[cur] := buckets[cur], carried;
        carried := DistInc(carried);
        assert buckets[..] == B[cur := buckets[cur]];
        cur := Next(cur, buckets.Length);
        s := s + 1;
      }
      ghost var B := buckets[..];
      UpDone(B0, B, place, s, bucket, carried, cur);
      buckets[cur] := carried;
      assert buckets[..] == B[cur := carried];
    }

    // Place the bucket of value k where its probe ended; the values before it
    // are indexed already.
    method IndexValue(k: nat, df: nat, b: nat, ghost j: nat)
      requires Sized() && k < |values| && k < buckets.Length
      requires WellFormed(buckets[..], SigsOf(hash, shifts, values[..k]), pos)
      requires var x := SigOf(hash(values[k].0), shifts);
               && Placeable(buckets[..], x, j)
               && b == At(x.home, j, buckets.Length) && df == ProbeDf(x.fp, j)
      modifies this`pos, buckets
      ensures WellFormed(buckets[..], SigsOf(hash, shifts, values[..k + 1]), pos)
    {
      hide Indexed, RobinHood, HasStop, MaxCapacity, NumBuckets, HomeOf, ShiftedUp, SigsOf;
      ghost var B0, sig, x := buckets[..], SigsOf(hash, shifts, values[..k]), SigOf(hash(values[k].0), shifts);
      ghost var e := SomeEmpty(B0, sig, pos);
      var s := PlaceAndShiftUp(Bucket(df, k), b, e);
      pos := InsertKeeps(B0, buckets[..], sig, pos, x, j, s);
      SigsAppend(hash, shifts, values[..k], values[k].0, values[k].1);
      assert values[..k + 1] == values[..k] + [(values[k].0, values[k].1)];
    }

    // Take bucket t out and move the buckets behind it back by one, up to the
    // first that is empty or at home.
    method ShiftBack(t: nat, ghost sig: seq<Sig>, ghost pos: seq<nat>) returns (ghost s: nat)
      requires t < buckets.Length && buckets.Length >= 2
      requires WellFormed(buckets[..], sig, pos)
      modifies buckets
      ensures ShiftedBack(old(buckets[..]), buckets[..], t, s)
    {
      hide Indexed, RobinHood, HasStop, BackSoFar, ShiftedBack;
      var n := buckets.Length;
      var cur, next := t, Next(t, n);
      s := 0;
      ghost var B0 := buckets[..];
      BackStart(B0, t);
      while buckets[next].df >= 2 * DIST_INC
        invariant 0 <= s < n && cur == At(t, s, n) < n && next == Next(cur, n) < n
        invariant BackSoFar(B0, buckets[..], t, s)
        decreases n - s
      {
        ghost var B := buckets[..];
        BackStep(B0, B, t, s, cur, next);
        buckets[cur] := DistDec(buckets[next]);
        assert buckets[..] == B[cur := buckets[cur]];
        cur, next := next, Next(next, n);
        s := s + 1;
      }
      ghost var B := buckets[..];
      BackDone(B0, B, t, s, cur, next);
      buckets[cur] := EMPTY;
      assert buckets[..] == B[cur := EMPTY];
    }

    // Walk from the home of value i to the bucket that points at it. Cleared
    // buckets also hold index 0; none of them is met on the way.
    method BucketOf(i: nat, key: K, ghost sig: seq<Sig>, ghost pos: seq<nat>, ghost hole: int) returns (b: nat)
      requires Sized()
      requires Indexed(buckets[..], sig, pos, hole) && RobinHood(buckets[..])
      requires i < |sig| && i != hole && sig[i] == SigOf(hash(key), shifts)
      ensures b == pos[i] < buckets.Length
    {
      hide Indexed, RobinHood, HasStop, MaxCapacity, NumBuckets, HomeOf;
      HomeInRange(hash(key), shifts);
      OwnBucket(buckets[..], sig, pos, hole, i);
      b := HomeOf(hash(key), shifts);
      ghost var j := 0;
      while buckets[b].idx != i
        invariant 0 <= j <= Off(sig[i].home, pos[i], buckets.Length)
        invariant b == At(sig[i].home, j, buckets.Length) && b < buckets.Length
        decreases Off(sig[i].home, pos[i], buckets.Length) - j
      {
        b := Next(b, buckets.Length);
        j := j + 1;
      }
      ProbeChain(buckets[..], sig, pos, hole, i, j);
      PointsAtValue(buckets[..], sig, pos, hole, b);
    }

    // ------------------------------------------------------------ rebuilding

    // The loop bound is the size cut to a 32-bit index.
    method ClearAndFillBucketsFromValues()
      requires Sized() && Distinct(values) && |values| <= buckets.Length
      modifies this`pos, buckets
      ensures |values| < MAX_BUCKETS ==> WellFormed(buckets[..], SigsOf(hash, shifts, values), pos)
      ensures |values| == MAX_BUCKETS ==> forall c :: 0 <= c < buckets.Length ==> buckets[c] == EMPTY
    {
      hide Indexed, RobinHood, MaxCapacity, NumBuckets, HomeOf, ShiftedUp;
      ClearBuckets();
      pos := [];
      var i, end := 0, |values| % MAX_BUCKETS;
      EmptyKeeps(buckets[..]);
      assert SigsOf(hash, shifts, values[..0]) == [];
      while i < end
        invariant 0 <= i <= end
        invariant WellFormed(buckets[..], SigsOf(hash, shifts, values[..i]), pos)
        invariant end == 0 ==> forall c :: 0 <= c < buckets.Length ==> buckets[c] == EMPTY
      {
        var df, b, j := NextWhileLess(values[i].0, SigsOf(hash, shifts, values[..i]), pos);
        IndexValue(i, df, b, j);
        i := i + 1;
      }
      assert values[..|values|] == values;
    }

    // The table grows only when it is full; at the largest size it refuses.
    method IncreaseSize() returns (ok: bool)
      requires Valid() && |values| >= maxCapacity
      modifies this`buckets, this`shifts, this`maxCapacity, this`pos
      ensures Valid() && values == old(values)
      ensures ok <==> old(maxCapacity) != MAX_BUCKETS
      ensures ok ==> fresh(buckets) && Sized() && |values| < maxCapacity
      ensures !ok ==> buckets == old(buckets) && shifts == old(shifts) && maxCapacity == old(maxCapacity) && pos == old(pos)
    {
      hide Indexed, RobinHood, HasStop, MaxCapacity, NumBuckets;
      if maxCapacity == MAX_BUCKETS {
        return false;
      }
      RoomAfterGrowth(buckets.Length, shifts, maxCapacity);
      shifts := shifts - 1;
      AllocateBucketsFromShift();
      ClearAndFillBucketsFromValues();
      return true;
    }

    static lemma RoomAfterGrowth(length: nat, shifts: nat, maxCapacity: nat)
      requires shifts <= INITIAL_SHIFTS
      requires if length == 0 then maxCapacity == 0 && shifts == INITIAL_SHIFTS
               else length == NumBuckets(shifts) && maxCapacity == MaxCapacity(length) != MAX_BUCKETS
      ensures shifts > 0 && maxCapacity < MaxCapacity(NumBuckets(shifts - 1)) <= NumBuckets(shifts - 1)
      ensures maxCapacity < MAX_BUCKETS
    {
      HomeInRange(0, shifts);
      Pow2Of64();
      if shifts == 0 {
        assert false;
      }
      HomeInRange(0, shifts - 1);
      if length == 0 {
        Pow2Grows(3, 3);
        assert Pow2(3) == 8;
      } else {
        GrowthMakesRoom(shifts);
      }
    }

    // ------------------------------------------------------------ lookup

    // Two probes without the ordering test, then the loop with it.
    method Find(key: K) returns (r: Option<nat>)
      requires Valid()
      ensures r.Some? ==> r.value < |values| && values[r.value].0 == key && key in Model() && Model()[key] == values[r.value].1
      ensures r.None? ==> key !in Model()
    {
      hide Indexed, RobinHood, HasStop, MaxCapacity, NumBuckets, HomeOf, Distinct;
      DictHasKey(values, key);
      if |values| == 0 {
        return None;
      }
      ghost var sig := SigsOf(hash, shifts, values);
      var h := hash(key);
      HomeInRange(h, shifts);
      var df := DIST_INC + h % DIST_INC;
      var b := HomeOf(h, shifts);
      ghost var j := 0;
      var unrolled := 0;
      while unrolled < 2
        invariant 0 <= j == unrolled <= 2 && b == At(HomeOf(h, shifts), j, buckets.Length) && b < buckets.Length
        invariant df == ProbeDf(h % DIST_INC, j)
        invariant NoHit(buckets[..], values, key, SigOf(h, shifts), j)
      {
        if df == buckets[b].df {
          PointsAtValue(buckets[..], sig, pos, -1, b);
          if values[buckets[b].idx].0 == key {
            return Some(buckets[b].idx);
          }
        }
        df := df + DIST_INC;
        b := Next(b, buckets.Length);
        j := j + 1;
        unrolled := unrolled + 1;
      }
      while true
        invariant 0 <= j <= buckets.Length && b == At(HomeOf(h, shifts), j, buckets.Length) && b < buckets.Length
        invariant df == ProbeDf(h % DIST_INC, j)
        invariant NoHit(buckets[..], values, key, SigOf(h, shifts), j)
        decreases buckets.Length - j
      {
        if df == buckets[b].df {
          PointsAtValue(buckets[..], sig, pos, -1, b);
          if values[buckets[b].idx].0 == key {
            return Some(buckets[b].idx);
          }
        } else if df > buckets[b].df {
          MissIsSound(buckets[..], hash, shifts, values, pos, key, j);
          return None;
        }
        DistanceBound(buckets[..], sig, pos, -1, b);
        df := df + DIST_INC;
        b := Next(b, buckets.Length);
        j := j + 1;
      }
    }

    // ------------------------------------------------------------ insertion

    method DoPlaceElement(df: nat, b: nat, key: K, val: V, ghost j: nat)
      requires Valid() && |values| < maxCapacity && !HasKey(values, key)
      requires Placeable(buckets[..], SigOf(hash(key), shifts), j)
      requires b == At(HomeOf(hash(key), shifts), j, buckets.Length) && df == ProbeDf(hash(key) % DIST_INC, j)
      modifies this`values, this`pos, buckets
      ensures Valid() && values == old(values) + [(key, val)]
      ensures Model() == old(Model())[key := val]
    {
      hide WellFormed, MaxCapacity, NumBuckets, HomeOf, SigsOf, Distinct, HasKey, Placeable;
      CapacityBelow(buckets.Length);
      DictAppend(values, key, val);
      values := values + [(key, val)];
      assert values[..|old(values)|] == old(values) && values[..|values|] == values;
      IndexValue(|values| - 1, df, b, j);
    }

    // The probe loop of every insertion: stop at the key, or at the first bucket
    // that is closer to its home than the key would be. The index covers the
    // first k values.
    method Probe(key: K, ghost k: nat, ghost pos: seq<nat>) returns (found: bool, df: nat, b: nat, ghost j: nat)
      requires Sized() && k <= |values| && k < buckets.Length
      requires WellFormed(buckets[..], SigsOf(hash, shifts, values[..k]), pos)
      ensures b < buckets.Length
      ensures found ==> buckets[b].idx < k && values[buckets[b].idx].0 == key
      ensures !found ==>
                && !HasKey(values[..k], key)
                && Placeable(buckets[..], SigOf(hash(key), shifts), j)
                && b == At(HomeOf(hash(key), shifts), j, buckets.Length) && df == ProbeDf(hash(key) % DIST_INC, j)
    {
      hide Indexed, RobinHood, HasStop, MaxCapacity, NumBuckets, HomeOf;
      ghost var sig := SigsOf(hash, shifts, values[..k]);
      ghost var e := SomeEmpty(buckets[..], sig, pos);
      var h := hash(key);
      HomeInRange(h, shifts);
      df := DIST_INC + h % DIST_INC;
      b := HomeOf(h, shifts);
      j := 0;
      while df <= buckets[b].df
        invariant 0 <= j <= Off(HomeOf(h, shifts), e, buckets.Length)
        invariant b == At(HomeOf(h, shifts), j, buckets.Length) && b < buckets.Length
        invariant df == ProbeDf(h % DIST_INC, j)
        invariant NoHit(buckets[..], values[..k], key, SigOf(h, shifts), j)
        invariant j > 0 ==> buckets[At(HomeOf(h, shifts), j - 1, buckets.Length)].df >= ProbeDf(h % DIST_INC, j - 1)
        decreases Off(HomeOf(h, shifts), e, buckets.Length) - j
      {
        if df == buckets[b].df {
          PointsAtValue(buckets[..], sig, pos, -1, b);
          if values[buckets[b].idx].0 == key {
            return true, df, b, j;
          }
        }
        df := df + DIST_INC;
        b := Next(b, buckets.Length);
        j := j + 1;
      }
      MissIsSound(buckets[..], hash, shifts, values[..k], pos, key, j);
      found := false;
    }

    method TryEmplace(key: K, val: V) returns (r: Result<(nat, bool), TableError>)
      requires Valid()
      modifies this, buckets
      ensures Valid()
      ensures buckets == old(buckets) || fresh(buckets)
      ensures r.Err? <==> |old(values)| >= old(maxCapacity) && old(maxCapacity) == MAX_BUCKETS
      ensures r.Err? || key in old(Model()) ==> values == old(values)
      ensures r.Ok? && key in old(Model()) ==> !r.value.1 && r.value.0 < |values| && values[r.value.0].0 == key
      ensures r.Ok? && key !in old(Model()) ==>
                r.value == (|old(values)|, true) && values == old(values) + [(key, val)]
                && Model() == old(Model())[key := val]
    {
      hide Indexed, RobinHood, HasStop, MaxCapacity, NumBuckets, HomeOf, Distinct;
      DictHasKey(values, key);
      if |values| >= maxCapacity {
        var ok := IncreaseSize();
        if !ok {
          return Err(BucketOverflow);
        }
      }
      CapacityBelow(buckets.Length);
      assert values[..|values|] == values;
      var found, df, b, j := Probe(key, |values|, pos);
      if found {
        return Ok((buckets[b].idx, false));
      }
      DoPlaceElement(df, b, key, val, j);
      return Ok((|values| - 1, true));
    }

    // The last entry has been pushed but not indexed: index it, or pop it again
    // if its key is there already.
    method PlaceBack() returns (r: (nat, bool))
      requires Sized() && 0 < |values| <= maxCapacity
      requires var vs := values[..|values| - 1];
               Distinct(vs) && WellFormed(buckets[..], SigsOf(hash, shifts, vs), pos)
      modifies this`values, this`pos, buckets
      ensures Valid()
      ensures var vs, pushed := old(values[..|values| - 1]), old(values[|values| - 1]);
              if HasKey(vs, pushed.0)
              then values == vs && !r.1 && r.0 < |values| && values[r.0].0 == pushed.0
              else values == old(values) && r == (|vs|, true)
    {
      hide WellFormed, MaxCapacity, NumBuckets, HomeOf, SigsOf, Distinct, Placeable;
      CapacityBelow(buckets.Length);
      var last := |values| - 1;
      assert values[..last + 1] == values;
      var found, df, b, j := Probe(values[last].0, last, pos);
      if found {
        r := (buckets[b].idx, false);
        assert values[r.0] == values[..last][r.0];
        values := values[..last];
      } else {
        DictAppend(values[..last], values[last].0, values[last].1);
        assert values[..last] + [(values[last].0, values[last].1)] == values;
        IndexValue(last, df, b, j);
        r := (last, true);
      }
    }

    // The entry is pushed first and placed or popped afterwards.
    method Emplace(key: K, val: V) returns (r: Result<(nat, bool), TableError>)
      requires Valid()
      modifies this, buckets
      ensures Valid()
      ensures buckets == old(buckets) || fresh(buckets)
      ensures r.Err? <==> |old(values)| >= old(maxCapacity) && old(maxCapacity) == MAX_BUCKETS
      ensures r.Err? || key in old(Model()) ==> values == old(values)
      ensures r.Ok? && key in old(Model()) ==> !r.value.1 && r.value.0 < |values| && values[r.value.0].0 == key
      ensures r.Ok? && key !in old(Model()) ==>
                r.value == (|old(values)|, true) && values == old(values) + [(key, val)]
                && Model() == old(Model())[key := val]
    {
      hide WellFormed, MaxCapacity, NumBuckets, HomeOf, SigsOf, Distinct, HasKey;
      DictHasKey(values, key);
      if |values| >= maxCapacity {
        var ok := IncreaseSize();
        if !ok {
          return Err(BucketOverflow);
        }
      }
      ghost var vs := values;
      values := values + [(key, val)];
      assert values[..|values| - 1] == vs;
      var placed := PlaceBack();
      if key !in Dict(vs) {
        DictAppend(vs, key, val);
      }
      return Ok(placed);
    }

    method InsertOrAssign(key: K, val: V) returns (r: Result<(nat, bool), TableError>)
      requires Valid()
      modifies this, buckets
      ensures Valid()
      ensures buckets == old(buckets) || fresh(buckets)
      ensures r.Err? <==> |old(values)| >= old(maxCapacity) && old(maxCapacity) == MAX_BUCKETS
      ensures r.Err? ==> values == old(values)
      ensures r.Ok? ==> r.value.1 == (key !in old(Model())) && Model() == old(Model())[key := val]
      ensures r.Ok? ==> |values| == |old(values)| + (if r.value.1 then 1 else 0)
    {
      hide Indexed, RobinHood, HasStop, MaxCapacity, NumBuckets, HomeOf, Distinct, SigsOf, HasKey;
      r := TryEmplace(key, val);
      if r.Ok? && !r.value.1 {
        var i := r.value.0;
        DictAssign(values, i, val);
        SigsAssign(hash, shifts, values, i, val);
        values := values[i := (values[i].0, val)];
      }
    }

    // ------------------------------------------------------------ erasure

    method DoErase(bucketIdx: nat)
      requires Valid() && bucketIdx < buckets.Length && buckets[bucketIdx].df != 0
      requires buckets[bucketIdx].idx < |values|
      modifies this`values, this`pos, buckets
      ensures Valid()
      ensures values == SwapRemove(old(values), old(buckets[bucketIdx].idx))
      ensures Model() == old(Model()) - {old(values[buckets[bucketIdx].idx].0)}
    {
      hide Indexed, RobinHood, HasStop, MaxCapacity, NumBuckets, HomeOf, ShiftedBack, Distinct, SigsOf;
      var i := buckets[bucketIdx].idx;
      DictRemove(values, i);
      ghost var B0, vs, sig := buckets[..], values, SigsOf(hash, shifts, values);
      var s := ShiftBack(bucketIdx, sig, pos);
      ghost var B1 := buckets[..];
      pos := EraseKeeps(B0, B1, sig, pos, bucketIdx, s);
      if i != |values| - 1 {
        SigAt(hash, shifts, values, |values| - 1);
        values := values[i := values[|values| - 1]];
        var back := |values| - 1;
        var b := BucketOf(back, values[i].0, sig, pos, i);
        Reindexed(B1, sig, pos, i);
        RedirectKeepsOrder(B1, b, i);
        buckets[b] := buckets[b].(idx := i);
        assert buckets[..] == B1[b := B1[b].(idx := i)];
      } else {
        DroppedLast(B1, sig, pos);
      }
      values := values[..|values| - 1];
      pos := SwapRemove(pos, i);
      assert values == SwapRemove(vs, i);
      SigsRemove(hash, shifts, vs, i);
    }

    // The search of an erase by key: past the richer buckets, then along the
    // equal ones.
    method FindForErase(key: K) returns (found: bool, b: nat)
      requires Valid() && |values| > 0
      ensures b < buckets.Length
      ensures found ==> buckets[b].df != 0 && buckets[b].idx < |values| && values[buckets[b].idx].0 == key
      ensures !found ==> !HasKey(values, key)
    {
      hide Indexed, RobinHood, HasStop, MaxCapacity, NumBuckets, HomeOf, Distinct, SigsOf;
      ghost var sig, x := SigsOf(hash, shifts, values), SigOf(hash(key), shifts);
      var df: nat;
      ghost var j: nat;
      df, b, j := NextWhileLess(key, sig, pos);
      while df == buckets[b].df
        invariant j <= buckets.Length && b == At(x.home, j, buckets.Length) && b < buckets.Length
        invariant df == ProbeDf(x.fp, j) && df >= DIST_INC && buckets[b].df <= df
        invariant NoHit(buckets[..], values, key, x, j)
        decreases buckets.Length - j
      {
        PointsAtValue(buckets[..], sig, pos, -1, b);
        if values[buckets[b].idx].0 == key {
          return true, b;
        }
        DistanceBound(buckets[..], sig, pos, -1, b);
        NoRicherNext(buckets[..], b, df);
        df := df + DIST_INC;
        b := Next(b, buckets.Length);
        j := j + 1;
      }
      MissIsSound(buckets[..], hash, shifts, values, pos, key, j);
      found := false;
    }

    method EraseKey(key: K) returns (count: nat)
      requires Valid()
      modifies this`values, this`pos, buckets
      ensures Valid()
      ensures Model() == old(Model()) - {key}
      ensures count == if key in old(Model()) then 1 else 0
      ensures count == 0 ==> values == old(values)
      ensures count == 1 ==> exists i: nat :: i < |old(values)| && old(values)[i].0 == key && values == SwapRemove(old(values), i)
    {
      hide WellFormed, MaxCapacity, NumBuckets, Distinct, SigsOf, SwapRemove;
      DictHasKey(values, key);
      if |values| == 0 {
        return 0;
      }
      var found, b := FindForErase(key);
      if !found {
        return 0;
      }
      assert HasKey(values, key);
      DoErase(b);
      return 1;
    }

    method EraseAt(i: nat)
      requires Valid() && i < |values|
      modifies this`values, this`pos, buckets
      ensures Valid()
      ensures values == SwapRemove(old(values), i)
      ensures Model() == old(Model()) - {old(values)[i].0}
    {
      hide Indexed, RobinHood, HasStop, MaxCapacity, NumBuckets, HomeOf, Distinct, SigsOf, SwapRemove;
      ghost var sig := SigsOf(hash, shifts, values);
      SigAt(hash, shifts, values, i);
      var b := BucketOf(i, values[i].0, sig, pos, -1);
      OwnBucket(buckets[..], sig, pos, -1, i);
      DoErase(b);
    }

    // First loop of a range erase: fill the hole from the back.
    method FillRange(first: nat, last: nat, mid: nat)
      requires Valid() && first <= last <= |values| && mid == Mid(|values|, first, last)
      modifies this`values, this`pos, buckets
      ensures Valid() && values == RangeSoFar(old(values), first, mid - first)
      ensures Model() == old(Model()) - KeysOf(old(values)[first..mid])
    {
      hide WellFormed, MaxCapacity, NumBuckets, Distinct, SigsOf, SwapRemove, RangeErased, RangeSoFar, KeysOf, Dict;
      ghost var vs, m := values, Model();
      var idx := first;
      RangeStart(vs, first, last);
      while idx != mid
        invariant first <= idx <= mid && Valid()
        invariant values == RangeSoFar(vs, first, idx - first)
        invariant Model() == m - KeysOf(vs[first..idx])
        decreases mid - idx
      {
        RangeStep(vs, first, last, idx - first);
        EraseAt(idx);
        idx := idx + 1;
      }
    }

    method EraseRange(first: nat, last: nat)
      requires Valid() && first <= last <= |values|
      modifies this`values, this`pos, buckets
      ensures Valid()
      ensures values == RangeErased(old(values), first, last)
      ensures Model() == old(Model()) - KeysOf(old(values)[first..last])
    {
      hide WellFormed, MaxCapacity, NumBuckets, Distinct, SigsOf, SwapRemove, RangeErased, RangeSoFar, KeysOf, Dict;
      ghost var vs, m := values, Model();
      var mid := Mid(|values|, first, last);
      FillRange(first, last, mid);
      DropTail(first, last, mid, vs);
      RangeTail(vs, first, last);
      RangeDone(vs, first, last);
      MinusBoth(m, KeysOf(vs[first..mid]), KeysOf(vs[mid..last]));
    }

    // Second loop: what is left of the range is at the end.
    method DropTail(first: nat, last: nat, mid: nat, ghost vs: seq<(K, V)>)
      requires Valid() && first <= mid <= last <= |vs| && mid == Mid(|vs|, first, last)
      requires values == RangeSoFar(vs, first, mid - first)
      modifies this`values, this`pos, buckets
      ensures Valid() && |vs| - (last - first) <= |old(values)|
      ensures values == old(values)[..|vs| - (last - first)]
      ensures Model() == old(Model()) - KeysOf(vs[mid..last])
    {
      hide WellFormed, MaxCapacity, NumBuckets, Distinct, SigsOf, SwapRemove, RangeErased, RangeSoFar, KeysOf, Dict, Mid;
      ghost var r, m := values, Model();
      RangeTail(vs, first, last);
      var idx := last;
      while idx != mid
        invariant mid <= idx <= last && Valid()
        invariant |vs| - (mid - first) - (last - idx) <= |r| && values == r[..|vs| - (mid - first) - (last - idx)]
        invariant Model() == m - KeysOf(vs[idx..last])
        decreases idx - mid
      {
        idx := idx - 1;
        RangeTailStep(vs, first, last, idx);
        EraseAt(idx);
        MinusBoth(m, KeysOf(vs[idx + 1..last]), {vs[idx].0});
      }
    }

    lemma MinusBoth(m: map<K, V>, a: set<K>, b: set<K>)
      ensures m - a - b == m - (a + b) == m - (b + a)
    {}

    method EraseIf(pred: ((K, V)) -> bool) returns (count: nat)
      requires Valid()
      modifies this`values, this`pos, buckets
      ensures Valid()
      ensures count == |old(values)| - |values|
      ensures forall e :: e in values <==> e in old(values) && !pred(e)
      ensures Model() == map k | k in old(Model()) && !pred((k, old(Model())[k])) :: old(Model())[k]
    {
      hide WellFormed, MaxCapacity, NumBuckets, Distinct, SigsOf, SwapRemove;
      ghost var vs := values;
      var oldSize := |values|;
      var idx := oldSize;
      while idx != 0
        invariant 0 <= idx <= |values| <= oldSize && Valid()
        invariant forall e :: e in values ==> e in vs
        invariant forall e :: e in vs && !pred(e) ==> e in values
        invariant forall i :: idx <= i < |values| ==> !pred(values[i])
      {
        idx := idx - 1;
        if pred(values[idx]) {
          SwapRemoveIn(values, idx);
          EraseAt(idx);
        }
      }
      Filtered(vs, values, pred);
      return oldSize - |values|;
    }

    method Clear()
      requires Valid()
      modifies this`values, this`pos, buckets
      ensures Valid() && values == [] && Model() == map[]
    {
      values := [];
      pos := [];
      ClearBuckets();
      if buckets.Length != 0 {
        EmptyKeeps(buckets[..]);
        assert SigsOf(hash, shifts, values) == [];
      }
    }

    // ------------------------------------------------------------ rehashing

    // Rebuilding with 2^32 entries indexes none of them: the loop bound of the
    // refill is the entry count cut to 32 bits. It is rebuilt unless its shift is
    // 0 already. Below 2^32 entries the map is kept.
    method Rehash(count: nat)
      requires Valid()
      modifies this, buckets
      ensures values == old(values)
      ensures |values| < MAX_BUCKETS ==> Valid() && Model() == old(Model())
      ensures |values| == MAX_BUCKETS ==> (buckets == old(buckets) <==> old(shifts) == 0)
      ensures |values| == MAX_BUCKETS && old(shifts) == 0 ==> Valid() && Model() == old(Model())
      ensures |values| == MAX_BUCKETS && old(shifts) != 0 ==>
                buckets.Length > 0 && forall c :: 0 <= c < buckets.Length ==> buckets[c] == EMPTY
      ensures buckets == old(buckets) || fresh(buckets)
    {
      hide WellFormed, Scaled, MaxCapacity, NumBuckets, HomeOf, SigsOf, Distinct;
      SizeLimit();
      var cnt := if count < MAX_BUCKETS then count else MAX_BUCKETS;
      var newShifts := CalcShiftsForSize(if cnt < |values| then |values| else cnt);
      NeverFull(newShifts);
      EnoughRoom(newShifts, if cnt < |values| then |values| else cnt);
      if newShifts != shifts {
        shifts := newShifts;
        AllocateBucketsFromShift();
        CapacityBelow(buckets.Length);
        ClearAndFillBucketsFromValues();
      }
    }

    method Reserve(capa: nat)
      requires Valid()
      modifies this, buckets
      ensures values == old(values)
      ensures |values| < MAX_BUCKETS ==> Valid() && Model() == old(Model())
      ensures |values| == MAX_BUCKETS ==> (buckets == old(buckets) <==> old(shifts) == 0)
      ensures |values| == MAX_BUCKETS && old(shifts) == 0 ==> Valid() && Model() == old(Model())
      ensures |values| == MAX_BUCKETS && old(shifts) != 0 ==>
                buckets.Length > 0 && forall c :: 0 <= c < buckets.Length ==> buckets[c] == EMPTY
      ensures |values| < MAX_BUCKETS ==> maxCapacity >= (if capa < MAX_BUCKETS then capa else MAX_BUCKETS)
      ensures buckets == old(buckets) || fresh(buckets)
    {
      hide WellFormed, Scaled, MaxCapacity, NumBuckets, HomeOf, SigsOf, Distinct;
      SizeLimit();
      var cnt := if capa < MAX_BUCKETS then capa else MAX_BUCKETS;
      var newShifts := CalcShiftsForSize(if cnt < |values| then |values| else cnt);
      NeverFull(newShifts);
      EnoughRoom(newShifts, if cnt < |values| then |values| else cnt);
      if buckets.Length == 0 || newShifts < shifts {
        shifts := newShifts;
        AllocateBucketsFromShift();
        CapacityBelow(buckets.Length);
        ClearAndFillBucketsFromValues();
      } else {
        RoomGrows(shifts, newShifts);
      }
    }

    lemma SizeLimit()
      requires Valid()
      ensures |values| <= MAX_BUCKETS
    {
      CapacityBelow(buckets.Length);
    }

    // Adopt an arbitrary container: entries whose key is already indexed are
    // overwritten by the last one and the container shrinks.
    method Replace(container: seq<(K, V)>) returns (ok: bool)
      requires Valid()
      modifies this, buckets
      ensures ok <==> |container| <= MAX_BUCKETS
      ensures !ok ==> Valid() && values == old(values)
      ensures |container| < MAX_BUCKETS ==> Valid()
      ensures ok ==> SameKeySet(container, values)
      ensures |container| == MAX_BUCKETS ==> values == container && forall c :: 0 <= c < buckets.Length ==> buckets[c] == EMPTY
    {
      hide WellFormed, Scaled, MaxCapacity, NumBuckets, HomeOf, SigsOf, Distinct, HasKey, SameKeySet;
      if |container| > MAX_BUCKETS {
        return false;
      }
      var newShifts := CalcShiftsForSize(|container|);
      EnoughRoom(newShifts, |container|);
      if buckets.Length == 0 || newShifts < shifts {
        shifts := newShifts;
        AllocateBucketsFromShift();
      } else {
        RoomGrows(shifts, newShifts);
      }
      ClearBuckets();
      values := container;
      Deduplicate();
      return true;
    }

    method Deduplicate()
      requires Sized() && |values| <= maxCapacity
      requires forall c :: 0 <= c < buckets.Length ==> buckets[c] == EMPTY
      modifies this`values, this`pos, buckets
      ensures |old(values)| < MAX_BUCKETS ==> Valid()
      ensures SameKeySet(old(values), values)
      ensures |old(values)| == MAX_BUCKETS ==> values == old(values) && forall c :: 0 <= c < buckets.Length ==> buckets[c] == EMPTY
    {
      hide WellFormed, MaxCapacity, NumBuckets, HomeOf, SigsOf, Distinct, HasKey, Placeable, SameKeySet, SwapRemove;
      CapacityBelow(buckets.Length);
      ghost var vs := values;
      pos := [];
      EmptyKeeps(buckets[..]);
      NothingDistinct(values);
      NoSigs(hash, shifts, values[..0]);
      AllHaveKeys(values);
      var i := 0;
      while i != |values| % MAX_BUCKETS
        invariant 0 <= i <= |values| <= |vs|
        invariant |vs| == MAX_BUCKETS ==> i == 0 && values == vs && forall c :: 0 <= c < buckets.Length ==> buckets[c] == EMPTY
        invariant Distinct(values[..i]) && WellFormed(buckets[..], SigsOf(hash, shifts, values[..i]), pos)
        invariant SameKeySet(vs, values)
        decreases |values| - i
      {
        i := DeduplicateOne(i, vs);
      }
      assert values[..|values|] == values;
    }

    // Index entry i, or overwrite it by the last one.
    method DeduplicateOne(i: nat, ghost vs: seq<(K, V)>) returns (i': nat)
      requires Sized() && i < |values| <= maxCapacity && |values| < MAX_BUCKETS
      requires Distinct(values[..i]) && WellFormed(buckets[..], SigsOf(hash, shifts, values[..i]), pos)
      requires SameKeySet(vs, values)
      modifies this`values, this`pos, buckets
      ensures i' <= |values| <= old(|values|) && |values| - i' < old(|values|) - i
      ensures Distinct(values[..i']) && WellFormed(buckets[..], SigsOf(hash, shifts, values[..i']), pos)
      ensures SameKeySet(vs, values)
    {
      hide WellFormed, MaxCapacity, NumBuckets, HomeOf, SigsOf, Distinct, HasKey, Placeable, SameKeySet, SwapRemove, Dict;
      CapacityBelow(buckets.Length);
      var found, df, b, j := Probe(values[i].0, i, pos);
      if found {
        DropDuplicate(vs, values, buckets[b].idx, i);
        if i != |values| - 1 {
          values := values[i := values[|values| - 1]];
        }
        values := values[..|values| - 1];
        i' := i;
      } else {
        DictAppend(values[..i], values[i].0, values[i].1);
        assert values[..i] + [(values[i].0, values[i].1)] == values[..i + 1];
        IndexValue(i, df, b, j);
        i' := i + 1;
      }
    }
  }
}
