/**
 The bucket array of the robin-hood hash table, as a sequence.

 Buckets form a circle of `|B|` slots. A non-empty bucket packs the probe
 distance (counted from 1, scaled by 256) with an 8-bit fingerprint of the hash
 in `df`, and the index of its entry in the dense value vector in `idx`.
 This module states what the array has to look like, and proves what the two
 in-place rearrangements (shift up on insert, shift back on erase) keep.
 */
module BucketArray {
  const DIST_INC: nat := 256

  datatype Bucket = Bucket(df: nat, idx: nat)

  const EMPTY := Bucket(0, 0)

  // What the hash of one entry contributes: its home bucket and its fingerprint.
  datatype Sig = Sig(home: nat, fp: nat)

  // ---------------------------------------------------------------- the circle

  function Next(b: int, n: int): int {
    if b + 1 == n then 0 else b + 1
  }

  function Prev(b: int, n: int): int {
    if b == 0 then n - 1 else b - 1
  }

  // Steps needed to walk forward from a to b.
  function Off(a: int, b: int, n: int): int {
    if b >= a then b - a else b + n - a
  }

  // The bucket j steps after a.
  function At(a: int, j: int, n: int): int {
    if a + j < n then a + j else a + j - n
  }

  // The value of the search key's distance-and-fingerprint after j probes.
  function ProbeDf(fp: int, j: int): int {
    (j + 1) * DIST_INC + fp
  }

  // One step further from home, and one step closer.
  function DistInc(b: Bucket): Bucket {
    Bucket(b.df + DIST_INC, b.idx)
  }

  function DistDec(b: Bucket): Bucket
    requires b.df >= DIST_INC
  {
    Bucket(b.df - DIST_INC, b.idx)
  }

  // ---------------------------------------------------------------- invariant

  // Buckets and values are in bijection: value i sits in bucket pos[i], at the
  // distance of that bucket from the value's home. `hole` is a value whose
  // bucket has been taken out (-1 for none).
  ghost predicate Indexed(B: seq<Bucket>, sig: seq<Sig>, pos: seq<nat>, hole: int) {
    && |pos| == |sig|
    && (forall i :: 0 <= i < |sig| ==> sig[i].home < |B| && sig[i].fp < DIST_INC)
    && (forall i :: 0 <= i < |sig| && i != hole ==>
         pos[i] < |B| && B[pos[i]].idx == i
         && B[pos[i]].df == ProbeDf(sig[i].fp, Off(sig[i].home, pos[i], |B|)))
    && (forall b :: 0 <= b < |B| && B[b].df != 0 ==>
         B[b].idx < |sig| && B[b].idx != hole && pos[B[b].idx] == b)
  }

  // A bucket further than one step from its key's home follows a bucket that
  // is at most one step closer to home.
  ghost predicate RobinHood(B: seq<Bucket>) {
    forall b :: 0 <= b < |B| ==> Ordered(B, b)
  }

  ghost predicate Ordered(B: seq<Bucket>, b: int)
    requires 0 <= b < |B|
  {
    && (B[b].df == 0 || B[b].df >= DIST_INC)
    && (B[b].df < 2 * DIST_INC || B[Prev(b, |B|)].df >= B[b].df - DIST_INC)
  }

  // Some bucket is empty or at its home: this is where a shift back stops.
  ghost predicate HasStop(B: seq<Bucket>) {
    exists w :: 0 <= w < |B| && B[w].df < 2 * DIST_INC
  }

  ghost predicate WellFormed(B: seq<Bucket>, sig: seq<Sig>, pos: seq<nat>) {
    Indexed(B, sig, pos, -1) && RobinHood(B) && HasStop(B)
  }

  lemma EmptyKeeps(B: seq<Bucket>)
    requires |B| > 0 && forall c :: 0 <= c < |B| ==> B[c] == EMPTY
    ensures WellFormed(B, [], [])
  {
    assert B[0].df < 2 * DIST_INC;
  }

  // ---------------------------------------------------------------- probing

  // Going back j steps from an occupied bucket, no bucket is poorer than the
  // probing key would be there: this is why an early miss is sound.
  lemma {:induction false} ProbeChain(B: seq<Bucket>, sig: seq<Sig>, pos: seq<nat>, hole: int, i: nat, j: nat)
    requires Indexed(B, sig, pos, hole) && RobinHood(B)
    requires i < |sig| && i != hole
    requires j <= Off(sig[i].home, pos[i], |B|)
    ensures 0 <= At(sig[i].home, j, |B|) < |B|
    ensures B[At(sig[i].home, j, |B|)].df >= ProbeDf(sig[i].fp, j)
    decreases Off(sig[i].home, pos[i], |B|) - j
  {
    var n := |B|;
    var h := sig[i].home;
    if j < Off(h, pos[i], n) {
      ProbeChain(B, sig, pos, hole, i, j + 1);
      assert Ordered(B, At(h, j + 1, n));
      assert Prev(At(h, j + 1, n), n) == At(h, j, n);
    }
  }

  // As long as the bucket of value i has not been probed, its probe goes on.
  lemma NotYet(B: seq<Bucket>, sig: seq<Sig>, pos: seq<nat>, hole: int, i: nat, j: nat)
    requires Indexed(B, sig, pos, hole) && RobinHood(B)
    requires i < |sig| && i != hole && j <= |B|
    requires forall m :: 0 <= m < j ==> At(sig[i].home, m, |B|) != pos[i]
    ensures j <= Off(sig[i].home, pos[i], |B|)
    ensures 0 <= At(sig[i].home, j, |B|) < |B|
    ensures B[At(sig[i].home, j, |B|)].df >= ProbeDf(sig[i].fp, j)
  {
    var off := Off(sig[i].home, pos[i], |B|);
    assert At(sig[i].home, off, |B|) == pos[i];
    ProbeChain(B, sig, pos, hole, i, j);
  }

  // An occupied bucket lies strictly before the first empty bucket after its home.
  lemma BeforeEmpty(B: seq<Bucket>, sig: seq<Sig>, pos: seq<nat>, hole: int, i: nat, e: nat)
    requires Indexed(B, sig, pos, hole) && RobinHood(B)
    requires i < |sig| && i != hole && e < |B| && B[e].df == 0
    ensures Off(sig[i].home, pos[i], |B|) < Off(sig[i].home, e, |B|)
  {
    var j := Off(sig[i].home, e, |B|);
    if Off(sig[i].home, pos[i], |B|) >= j {
      assert At(sig[i].home, j, |B|) == e;
      ProbeChain(B, sig, pos, hole, i, j);
      assert false;
    }
  }

  function Below(n: nat): (s: set<nat>)
    ensures |s| == n
    ensures forall x: nat :: x in s <==> x < n
  {
    if n == 0 then {} else Below(n - 1) + {n - 1}
  }

  function Elems(s: seq<nat>): (r: set<nat>)
    ensures |r| <= |s|
    ensures forall x :: x in r <==> x in s
  {
    if s == [] then {} else Elems(s[..|s| - 1]) + {s[|s| - 1]}
  }

  // Fewer values than buckets leave a bucket empty.
  lemma SomeEmpty(B: seq<Bucket>, sig: seq<Sig>, pos: seq<nat>) returns (e: nat)
    requires Indexed(B, sig, pos, -1) && |sig| < |B|
    ensures e < |B| && B[e].df == 0
  {
    var free := Below(|B|) - Elems(pos);
    if free == {} {
      SubsetSize(Below(|B|), Elems(pos));
      assert false;
    }
    e :| e in free;
  }

  lemma {:induction false} SubsetSize<T>(a: set<T>, b: set<T>)
    requires a <= b
    ensures |a| <= |b|
  {
    if a != {} {
      var x :| x in a;
      SubsetSize(a - {x}, b - {x});
    }
  }

  // ---------------------------------------------------------------- shift up

  // B1 is B0 with `x` placed at p and the run of s occupied buckets from p on
  // moved up by one, each a step further from home.
  ghost predicate ShiftedUp(B0: seq<Bucket>, B1: seq<Bucket>, p: int, s: int, x: Bucket) {
    && |B1| == |B0|
    && 0 <= p < |B0| && 0 <= s < |B0|
    && B0[At(p, s, |B0|)].df == 0
    && (forall c :: 0 <= c < |B0| && Off(p, c, |B0|) < s ==> B0[c].df != 0)
    && (forall c {:trigger B1[c]} :: 0 <= c < |B0| ==>
         B1[c] == if c == p then x
                  else if Off(p, c, |B0|) <= s then DistInc(B0[Prev(c, |B0|)])
                  else B0[c])
  }

  // The state of that walk after s buckets have been moved, with the bucket
  // that is being carried.
  ghost predicate UpSoFar(B0: seq<Bucket>, B: seq<Bucket>, p: int, s: int, x: Bucket, carried: Bucket) {
    && |B| == |B0|
    && 0 <= p < |B0| && 0 <= s < |B0|
    && (forall c :: 0 <= c < |B0| && Off(p, c, |B0|) < s ==> B0[c].df != 0)
    && carried == (if s == 0 then x else DistInc(B0[At(p, s - 1, |B0|)]))
    && (forall c {:trigger B[c]} :: 0 <= c < |B0| ==>
         B[c] == if Off(p, c, |B0|) >= s then B0[c]
                 else if c == p then x else DistInc(B0[Prev(c, |B0|)]))
  }

  lemma UpStart(B0: seq<Bucket>, p: int, x: Bucket)
    requires 0 <= p < |B0|
    ensures UpSoFar(B0, B0, p, 0, x, x)
  {
  }

  lemma UpStep(B0: seq<Bucket>, B: seq<Bucket>, p: int, s: int, x: Bucket, carried: Bucket, cur: int, e: int)
    requires UpSoFar(B0, B, p, s, x, carried)
    requires cur == At(p, s, |B0|) && 0 <= cur < |B0| && B[cur].df != 0
    requires 0 <= e < |B0| && B0[e].df == 0 && s <= Off(p, e, |B0|)
    ensures s < Off(p, e, |B0|) && UpSoFar(B0, B[cur := carried], p, s + 1, x, DistInc(B[cur]))
  {
    var n := |B0|;
    assert Off(p, cur, n) == s;
    assert B[cur] == B0[cur];
    assert cur != e;
    assert s > 0 ==> At(p, s - 1, n) == Prev(cur, n);
  }

  lemma UpDone(B0: seq<Bucket>, B: seq<Bucket>, p: int, s: int, x: Bucket, carried: Bucket, cur: int)
    requires UpSoFar(B0, B, p, s, x, carried)
    requires cur == At(p, s, |B0|) && 0 <= cur < |B0| && B[cur].df == 0
    ensures ShiftedUp(B0, B[cur := carried], p, s, x)
  {
    var n := |B0|;
    assert Off(p, cur, n) == s;
    assert B[cur] == B0[cur];
    assert s > 0 ==> At(p, s - 1, n) == Prev(cur, n);
  }

  // Where a bucket ends up after a shift up of s buckets from p.
  function Up(b: int, n: int, p: int, s: int): int {
    if Off(p, b, n) < s then Next(b, n) else b
  }

  ghost predicate UpPos(pos: seq<nat>, pos1: seq<nat>, n: int, p: int, s: int) {
    |pos1| == |pos| + 1 && pos1[|pos|] == p
    && forall i :: 0 <= i < |pos| ==> pos1[i] == Up(pos[i], n, p, s)
  }

  // A bucket that is moved keeps its distance in step with its place.
  lemma UpStays(B0: seq<Bucket>, B1: seq<Bucket>, h: int, b: int, p: int, s: int, x: Bucket, fp: int)
    requires ShiftedUp(B0, B1, p, s, x)
    requires 0 <= b < |B0| && 0 <= h < |B0|
    requires B0[b].df != 0
    requires B0[b].df == ProbeDf(fp, Off(h, b, |B0|))
    requires Off(h, b, |B0|) < Off(h, At(p, s, |B0|), |B0|)
    ensures var b1 := Up(b, |B0|, p, s);
            0 <= b1 < |B0| && B1[b1].idx == B0[b].idx && B1[b1].df == ProbeDf(fp, Off(h, b1, |B0|))
  {
    var n := |B0|;
    if Off(p, b, n) < s {
      var b1 := Next(b, n);
      assert Prev(b1, n) == b;
      assert Off(p, b1, n) == Off(p, b, n) + 1;
      assert Off(h, b1, n) == Off(h, b, n) + 1;
    } else {
      assert b != At(p, s, n);
      assert Off(p, b, n) != s;
    }
  }

  // Every bucket that is occupied afterwards holds x or was moved there.
  lemma UpFrom(B0: seq<Bucket>, B1: seq<Bucket>, b: int, p: int, s: int, x: Bucket) returns (a: int)
    requires ShiftedUp(B0, B1, p, s, x)
    requires 0 <= b < |B0| && b != p && B1[b].df != 0
    ensures 0 <= a < |B0| && B0[a].df != 0 && B1[b].idx == B0[a].idx && Up(a, |B0|, p, s) == b
  {
    var n := |B0|;
    if Off(p, b, n) <= s {
      a := Prev(b, n);
      assert Off(p, a, n) == Off(p, b, n) - 1;
    } else {
      a := b;
    }
  }

  lemma UpIndexed(B0: seq<Bucket>, B1: seq<Bucket>, sig: seq<Sig>, pos: seq<nat>, pos1: seq<nat>,
                  x: Sig, p: int, s: int)
    requires Indexed(B0, sig, pos, -1) && RobinHood(B0)
    requires x.home < |B0| && x.fp < DIST_INC && 0 <= p < |B0|
    requires ShiftedUp(B0, B1, p, s, Bucket(ProbeDf(x.fp, Off(x.home, p, |B0|)), |sig|))
    requires UpPos(pos, pos1, |B0|, p, s)
    ensures Indexed(B1, sig + [x], pos1, -1)
  {
    var n := |B0|;
    var y := Bucket(ProbeDf(x.fp, Off(x.home, p, |B0|)), |sig|);
    var sig1 := sig + [x];
    forall i | 0 <= i < |sig|
      ensures pos1[i] < n && B1[pos1[i]].idx == i
              && B1[pos1[i]].df == ProbeDf(sig[i].fp, Off(sig[i].home, pos1[i], n))
    {
      BeforeEmpty(B0, sig, pos, -1, i, At(p, s, n));
      UpStays(B0, B1, sig[i].home, pos[i], p, s, y, sig[i].fp);
    }
    forall b | 0 <= b < n && B1[b].df != 0
      ensures B1[b].idx < |sig1| && pos1[B1[b].idx] == b
    {
      if b != p {
        var a := UpFrom(B0, B1, b, p, s, y);
      }
    }
  }

  lemma UpOrdered(B0: seq<Bucket>, B1: seq<Bucket>, p: int, s: int, x: Bucket, c: int)
    requires RobinHood(B0) && |B0| >= 2
    requires ShiftedUp(B0, B1, p, s, x)
    requires B0[p].df <= x.df
    requires x.df >= 2 * DIST_INC ==> B0[Prev(p, |B0|)].df >= x.df - DIST_INC
    requires x.df >= DIST_INC
    requires 0 <= c < |B0|
    ensures Ordered(B1, c)
  {
    var n := |B0|;
    var e := At(p, s, n);
    var d := Off(p, c, n);
    var q := Prev(c, n);
    assert Ordered(B0, c) && Ordered(B0, q);
    if c == p {
      assert Off(p, q, n) == n - 1;
      if s == n - 1 {
        assert e == q;
      }
    } else {
      assert Off(p, q, n) == d - 1;
      if d <= s {
        if q != p {
          assert Off(p, Prev(q, n), n) == d - 2;
          assert Ordered(B0, Prev(q, n));
        }
      } else if d == s + 1 {
        assert q == e;
      }
    }
  }

  lemma UpStop(B0: seq<Bucket>, B1: seq<Bucket>, p: int, s: int, x: Bucket)
    requires RobinHood(B0) && |B0| >= 2
    requires ShiftedUp(B0, B1, p, s, x)
    requires x.df >= 2 * DIST_INC ==> B0[Prev(p, |B0|)].df >= x.df - DIST_INC
    ensures HasStop(B1)
  {
    var n := |B0|;
    var e := At(p, s, n);
    var w := Next(e, n);
    assert Prev(w, n) == e;
    assert Ordered(B0, w);
    assert B0[w].df < 2 * DIST_INC;
    assert Off(p, w, n) == if w == p then 0 else s + 1;
    assert B1[w].df < 2 * DIST_INC;
  }

  // Placing a new value where its probe stopped keeps the table well formed.
  lemma ShiftUpKeeps(B0: seq<Bucket>, B1: seq<Bucket>, sig: seq<Sig>, pos: seq<nat>, pos1: seq<nat>,
                     x: Sig, j: nat, s: int)
    requires WellFormed(B0, sig, pos) && |B0| >= 2
    requires x.home < |B0| && x.fp < DIST_INC && j < |B0|
    requires UpPos(pos, pos1, |B0|, At(x.home, j, |B0|), s)
    requires B0[At(x.home, j, |B0|)].df <= ProbeDf(x.fp, j)
    requires j > 0 ==> B0[At(x.home, j - 1, |B0|)].df >= ProbeDf(x.fp, j - 1)
    requires ShiftedUp(B0, B1, At(x.home, j, |B0|), s, Bucket(ProbeDf(x.fp, j), |sig|))
    ensures WellFormed(B1, sig + [x], pos1)
  {
    var n := |B0|;
    var p := At(x.home, j, n);
    var y := Bucket(ProbeDf(x.fp, j), |sig|);
    assert Off(x.home, p, n) == j;
    if j > 0 {
      assert Prev(p, n) == At(x.home, j - 1, n);
    }
    UpIndexed(B0, B1, sig, pos, pos1, x, p, s);
    forall c | 0 <= c < n
      ensures Ordered(B1, c)
    {
      UpOrdered(B0, B1, p, s, y, c);
    }
    UpStop(B0, B1, p, s, y);
  }

  // The same, with the new places of the values worked out.
  lemma InsertKeeps(B0: seq<Bucket>, B1: seq<Bucket>, sig: seq<Sig>, pos: seq<nat>, x: Sig, j: nat, s: int)
    returns (pos1: seq<nat>)
    requires WellFormed(B0, sig, pos) && |B0| >= 2
    requires x.home < |B0| && x.fp < DIST_INC && j < |B0|
    requires B0[At(x.home, j, |B0|)].df <= ProbeDf(x.fp, j)
    requires j > 0 ==> B0[At(x.home, j - 1, |B0|)].df >= ProbeDf(x.fp, j - 1)
    requires ShiftedUp(B0, B1, At(x.home, j, |B0|), s, Bucket(ProbeDf(x.fp, j), |sig|))
    ensures WellFormed(B1, sig + [x], pos1)
  {
    var n, p := |B0|, At(x.home, j, |B0|);
    pos1 := seq(|pos|, i requires 0 <= i < |pos| => if Up(pos[i], n, p, s) >= 0 then Up(pos[i], n, p, s) else 0) + [p];
    ShiftUpKeeps(B0, B1, sig, pos, pos1, x, j, s);
  }

  // ---------------------------------------------------------------- shift back

  // B1 is B0 with the bucket t taken out and the s buckets after it moved back
  // by one, each a step closer to home; the walk stopped because the next
  // bucket is empty or at home (or the whole circle has been moved).
  ghost predicate ShiftedBack(B0: seq<Bucket>, B1: seq<Bucket>, t: int, s: int) {
    && |B1| == |B0|
    && 0 <= t < |B0| && 0 <= s < |B0|
    && (forall c :: 0 <= c < |B0| && 1 <= Off(t, c, |B0|) <= s ==> B0[c].df >= 2 * DIST_INC)
    && (s + 1 < |B0| ==> B0[At(t, s + 1, |B0|)].df < 2 * DIST_INC)
    && (forall c {:trigger B1[c]} :: 0 <= c < |B0| && Off(t, c, |B0|) < s ==>
         B0[Next(c, |B0|)].df >= DIST_INC && B1[c] == DistDec(B0[Next(c, |B0|)]))
    && (forall c {:trigger B1[c]} :: 0 <= c < |B0| && Off(t, c, |B0|) >= s ==>
         B1[c] == if Off(t, c, |B0|) == s then EMPTY else B0[c])
  }

  // The state of that walk after s buckets have been moved.
  ghost predicate BackSoFar(B0: seq<Bucket>, B: seq<Bucket>, t: int, s: int) {
    && |B| == |B0|
    && 0 <= t < |B0| && 0 <= s < |B0|
    && (forall c :: 0 <= c < |B0| && 1 <= Off(t, c, |B0|) <= s ==> B0[c].df >= 2 * DIST_INC)
    && (forall c {:trigger B[c]} :: 0 <= c < |B0| && Off(t, c, |B0|) < s ==>
         B0[Next(c, |B0|)].df >= DIST_INC && B[c] == DistDec(B0[Next(c, |B0|)]))
    && (forall c {:trigger B[c]} :: 0 <= c < |B0| && Off(t, c, |B0|) >= s ==> B[c] == B0[c])
  }

  lemma BackStart(B0: seq<Bucket>, t: int)
    requires 0 <= t < |B0|
    ensures BackSoFar(B0, B0, t, 0)
  {
  }

  lemma BackStep(B0: seq<Bucket>, B: seq<Bucket>, t: int, s: int, cur: int, next: int)
    requires RobinHood(B0) && HasStop(B0) && |B0| >= 2
    requires BackSoFar(B0, B, t, s)
    requires cur == At(t, s, |B0|) && next == Next(cur, |B0|)
    requires 0 <= cur < |B0| && 0 <= next < |B0| && B[next].df >= 2 * DIST_INC
    ensures s + 1 < |B0| && BackSoFar(B0, B[cur := DistDec(B[next])], t, s + 1)
  {
    var n := |B0|;
    if s == n - 1 {
      assert B[t] == DistDec(B0[Next(t, n)]);
      FullCircleStops(B0, t);
      assert false;
    }
    assert Off(t, cur, n) == s && Off(t, next, n) == s + 1;
    assert B[next] == B0[next];
    forall c | 0 <= c < n && 1 <= Off(t, c, n) <= s + 1
      ensures B0[c].df >= 2 * DIST_INC
    {
      if Off(t, c, n) == s + 1 {
        assert c == next;
      }
    }
    var B1 := B[cur := DistDec(B[next])];
    forall c | 0 <= c < n && Off(t, c, n) < s + 1
      ensures B0[Next(c, n)].df >= DIST_INC && B1[c] == DistDec(B0[Next(c, n)])
    {
      if c != cur {
        assert Off(t, c, n) != s;
        assert B1[c] == B[c];
      }
    }
    forall c | 0 <= c < n && Off(t, c, n) >= s + 1
      ensures B1[c] == B0[c]
    {
      assert B1[c] == B[c];
    }
    assert BackSoFar(B0, B1, t, s + 1);
  }

  lemma BackDone(B0: seq<Bucket>, B: seq<Bucket>, t: int, s: int, cur: int, next: int)
    requires BackSoFar(B0, B, t, s) && |B0| >= 2
    requires cur == At(t, s, |B0|) && next == Next(cur, |B0|)
    requires 0 <= cur < |B0| && 0 <= next < |B0| && B[next].df < 2 * DIST_INC
    ensures ShiftedBack(B0, B[cur := EMPTY], t, s)
  {
    var n := |B0|;
    assert Off(t, cur, n) == s;
    if s + 1 < n {
      assert Off(t, next, n) == s + 1;
      assert next == At(t, s + 1, n);
      assert B[next] == B0[next];
    }
    var B1 := B[cur := EMPTY];
    forall c | 0 <= c < n && Off(t, c, n) >= s
      ensures B1[c] == if Off(t, c, n) == s then EMPTY else B0[c]
    {
      if c == cur {
      } else {
        assert Off(t, c, n) != s;
        assert B1[c] == B[c];
      }
    }
    forall c | 0 <= c < n && Off(t, c, n) < s
      ensures B0[Next(c, n)].df >= DIST_INC && B1[c] == DistDec(B0[Next(c, n)])
    {
      assert B1[c] == B[c];
    }
  }

  function Back(b: int, n: int, t: int, s: int): int {
    if 1 <= Off(t, b, n) <= s then Prev(b, n) else b
  }

  ghost predicate BackPos(pos: seq<nat>, pos1: seq<nat>, n: int, t: int, s: int) {
    |pos1| == |pos| && forall i :: 0 <= i < |pos| ==> pos1[i] == Back(pos[i], n, t, s)
  }

  lemma BackStays(B0: seq<Bucket>, B1: seq<Bucket>, h: int, b: int, t: int, s: int, fp: int)
    requires ShiftedBack(B0, B1, t, s)
    requires 0 <= b < |B0| && 0 <= h < |B0| && b != t && fp < DIST_INC
    requires B0[b].df == ProbeDf(fp, Off(h, b, |B0|))
    ensures var b1 := Back(b, |B0|, t, s);
            0 <= b1 < |B0| && B1[b1].idx == B0[b].idx && B1[b1].df == ProbeDf(fp, Off(h, b1, |B0|))
  {
    var n := |B0|;
    var d := Off(t, b, n);
    if d <= s {
      var b1 := Prev(b, n);
      assert Next(b1, n) == b;
      assert Off(t, b1, n) == d - 1;
      assert Off(h, b, n) >= 1;
      assert Off(h, b1, n) == Off(h, b, n) - 1;
    }
  }

  lemma BackFrom(B0: seq<Bucket>, B1: seq<Bucket>, b: int, t: int, s: int) returns (a: int)
    requires ShiftedBack(B0, B1, t, s)
    requires 0 <= b < |B0| && B1[b].df != 0
    ensures 0 <= a < |B0| && a != t && B0[a].df != 0 && B1[b].idx == B0[a].idx && Back(a, |B0|, t, s) == b
  {
    var n := |B0|;
    if Off(t, b, n) < s {
      a := Next(b, n);
      assert Off(t, a, n) == Off(t, b, n) + 1;
    } else {
      a := b;
    }
  }

  lemma BackIndexed(B0: seq<Bucket>, B1: seq<Bucket>, sig: seq<Sig>, pos: seq<nat>, pos1: seq<nat>, t: int, s: int)
    requires Indexed(B0, sig, pos, -1)
    requires ShiftedBack(B0, B1, t, s) && B0[t].df != 0
    requires BackPos(pos, pos1, |B0|, t, s)
    ensures Indexed(B1, sig, pos1, B0[t].idx)
  {
    var n := |B0|;
    var hole := B0[t].idx;
    forall i | 0 <= i < |sig| && i != hole
      ensures pos1[i] < n && B1[pos1[i]].idx == i
              && B1[pos1[i]].df == ProbeDf(sig[i].fp, Off(sig[i].home, pos1[i], n))
    {
      BackStays(B0, B1, sig[i].home, pos[i], t, s, sig[i].fp);
    }
    forall b | 0 <= b < n && B1[b].df != 0
      ensures B1[b].idx < |sig| && B1[b].idx != hole && pos1[B1[b].idx] == b
    {
      var a := BackFrom(B0, B1, b, t, s);
    }
  }

  // If every bucket but t is away from home, t is at home.
  lemma LastIsStop(B: seq<Bucket>, t: int)
    requires HasStop(B) && 0 <= t < |B|
    requires forall c :: 0 <= c < |B| && Off(t, c, |B|) >= 1 ==> B[c].df >= 2 * DIST_INC
    ensures B[t].df < 2 * DIST_INC
  {
  }

  lemma BackOrdered(B0: seq<Bucket>, B1: seq<Bucket>, t: int, s: int, c: int)
    requires RobinHood(B0) && HasStop(B0) && |B0| >= 2
    requires ShiftedBack(B0, B1, t, s)
    requires 0 <= c < |B0|
    ensures Ordered(B1, c)
  {
    var n := |B0|;
    var d := Off(t, c, n);
    var q := Prev(c, n);
    assert Ordered(B0, c);
    if d < s {
      BackOrderedMoved(B0, B1, t, s, c);
    } else if d == s + 1 {
      assert At(t, s + 1, n) == c;
    } else if d > s {
      assert Off(t, q, n) == d - 1;
    }
  }

  lemma BackOrderedMoved(B0: seq<Bucket>, B1: seq<Bucket>, t: int, s: int, c: int)
    requires RobinHood(B0) && HasStop(B0) && |B0| >= 2
    requires ShiftedBack(B0, B1, t, s)
    requires 0 <= c < |B0| && Off(t, c, |B0|) < s
    ensures Ordered(B1, c)
  {
    var n := |B0|;
    var q, x := Prev(c, n), Next(c, n);
    assert Off(t, x, n) == Off(t, c, n) + 1;
    assert B1[c] == DistDec(B0[x]);
    assert Ordered(B0, x);
    assert Ordered(B0, c);
    assert B0[c].df >= B1[c].df;
    if c == t {
      assert Off(t, q, n) == n - 1;
      if s == n - 1 {
        LastIsStop(B0, t);
      } else {
        assert B1[q] == B0[q];
      }
    } else {
      assert Off(t, q, n) == Off(t, c, n) - 1;
      assert Next(q, n) == c;
      assert B1[q] == DistDec(B0[c]);
    }
  }

  // Taking a bucket out and shifting back leaves its value the only one
  // without a bucket; nobody else loses theirs.
  lemma ShiftBackKeeps(B0: seq<Bucket>, B1: seq<Bucket>, sig: seq<Sig>, pos: seq<nat>, pos1: seq<nat>, t: int, s: int)
    requires WellFormed(B0, sig, pos) && |B0| >= 2
    requires ShiftedBack(B0, B1, t, s) && B0[t].df != 0
    requires BackPos(pos, pos1, |B0|, t, s)
    ensures Indexed(B1, sig, pos1, B0[t].idx) && RobinHood(B1) && HasStop(B1)
  {
    BackIndexed(B0, B1, sig, pos, pos1, t, s);
    forall c | 0 <= c < |B0|
      ensures Ordered(B1, c)
    {
      BackOrdered(B0, B1, t, s, c);
    }
    var e := At(t, s, |B0|);
    assert Off(t, e, |B0|) == s;
    assert B1[e] == EMPTY;
  }

  lemma EraseKeeps(B0: seq<Bucket>, B1: seq<Bucket>, sig: seq<Sig>, pos: seq<nat>, t: int, s: int)
    returns (pos1: seq<nat>)
    requires WellFormed(B0, sig, pos) && |B0| >= 2
    requires ShiftedBack(B0, B1, t, s) && B0[t].df != 0
    ensures Indexed(B1, sig, pos1, B0[t].idx) && RobinHood(B1) && HasStop(B1)
  {
    var n := |B0|;
    pos1 := seq(|pos|, i requires 0 <= i < |pos| => if Back(pos[i], n, t, s) >= 0 then Back(pos[i], n, t, s) else 0);
    ShiftBackKeeps(B0, B1, sig, pos, pos1, t, s);
  }

  // If a shift back has moved every other bucket, the next one it looks at is
  // its own start, which has just received a bucket that is at home.
  lemma FullCircleStops(B: seq<Bucket>, t: int)
    requires RobinHood(B) && HasStop(B) && 0 <= t < |B| && |B| >= 2
    requires forall c :: 0 <= c < |B| && Off(t, c, |B|) >= 1 ==> B[c].df >= 2 * DIST_INC
    ensures B[Next(t, |B|)].df < 3 * DIST_INC
  {
    LastIsStop(B, t);
    assert Ordered(B, Next(t, |B|));
  }

  // ---------------------------------------------------------------- swap with last

  function SwapRemove<T>(s: seq<T>, i: nat): seq<T>
    requires i < |s|
  {
    if i == |s| - 1 then s[..i] else s[..|s| - 1][i := s[|s| - 1]]
  }

  // Redirecting the bucket of the last value to the freed slot restores the
  // bijection for the value vector with that slot filled by its last value.
  lemma Reindexed(B: seq<Bucket>, sig: seq<Sig>, pos: seq<nat>, i: nat)
    requires i < |sig| - 1 && Indexed(B, sig, pos, i)
    ensures var q := pos[|sig| - 1];
            q < |B| && Indexed(B[q := B[q].(idx := i)], SwapRemove(sig, i), SwapRemove(pos, i), -1)
  {
    var last := |sig| - 1;
    var q := pos[last];
    var B1 := B[q := B[q].(idx := i)];
    var sig1, pos1 := SwapRemove(sig, i), SwapRemove(pos, i);
    assert B[q].idx == last && B[q].df != 0;
    forall k | 0 <= k < |sig1|
      ensures pos1[k] < |B1| && B1[pos1[k]].idx == k
              && B1[pos1[k]].df == ProbeDf(sig1[k].fp, Off(sig1[k].home, pos1[k], |B1|))
    {
      if k == i {
        assert pos1[k] == q && sig1[k] == sig[last];
      } else {
        assert pos1[k] == pos[k] && sig1[k] == sig[k];
        assert B[pos[k]].idx == k;
      }
    }
    ReindexedBuckets(B, sig, pos, i, B1, pos1);
  }

  lemma ReindexedBuckets(B: seq<Bucket>, sig: seq<Sig>, pos: seq<nat>, i: nat, B1: seq<Bucket>, pos1: seq<nat>)
    requires i < |sig| - 1 && Indexed(B, sig, pos, i)
    requires var q := pos[|sig| - 1];
             q < |B| && B[q].idx == |sig| - 1 && B1 == B[q := B[q].(idx := i)]
    requires pos1 == SwapRemove(pos, i)
    ensures forall b :: 0 <= b < |B1| && B1[b].df != 0 ==> B1[b].idx < |pos1| && pos1[B1[b].idx] == b
  {
    var q := pos[|sig| - 1];
    forall b | 0 <= b < |B1| && B1[b].df != 0
      ensures B1[b].idx < |pos1| && pos1[B1[b].idx] == b
    {
      assert B[b].df != 0;
      if b == q {
        assert pos1[i] == q;
      } else {
        assert B1[b] == B[b] && pos[B[b].idx] == b;
        assert B[b].idx != |sig| - 1;
        assert pos1[B[b].idx] == pos[B[b].idx];
      }
    }
  }

  // Dropping the last value leaves its bucket-less state behind.
  lemma DroppedLast(B: seq<Bucket>, sig: seq<Sig>, pos: seq<nat>)
    requires |sig| > 0 && Indexed(B, sig, pos, |sig| - 1)
    ensures Indexed(B, SwapRemove(sig, |sig| - 1), SwapRemove(pos, |sig| - 1), -1)
  {
  }

  // Redirecting an index does not disturb the order of distances.
  lemma RedirectKeepsOrder(B: seq<Bucket>, q: nat, i: nat)
    requires q < |B| && RobinHood(B) && HasStop(B)
    ensures RobinHood(B[q := B[q].(idx := i)]) && HasStop(B[q := B[q].(idx := i)])
  {
    var B1 := B[q := B[q].(idx := i)];
    assert forall b :: 0 <= b < |B| ==> B1[b].df == B[b].df;
    forall b | 0 <= b < |B1|
      ensures Ordered(B1, b)
    {
      assert Ordered(B, b);
    }
    var w :| 0 <= w < |B| && B[w].df < 2 * DIST_INC;
    assert B1[w].df < 2 * DIST_INC;
  }

  lemma OwnBucket(B: seq<Bucket>, sig: seq<Sig>, pos: seq<nat>, hole: int, i: nat)
    requires Indexed(B, sig, pos, hole) && i < |sig| && i != hole
    ensures |pos| == |sig| && pos[i] < |B| && B[pos[i]].idx == i && B[pos[i]].df != 0 && sig[i].home < |B|
  {
  }

  // The bucket after one at distance df is at most one step further from home.
  lemma NoRicherNext(B: seq<Bucket>, b: nat, df: nat)
    requires RobinHood(B) && b < |B| && B[b].df <= df && df >= DIST_INC
    ensures 0 <= Next(b, |B|) < |B| && B[Next(b, |B|)].df <= df + DIST_INC
  {
    assert Ordered(B, Next(b, |B|));
    assert |B| > 1 ==> Prev(Next(b, |B|), |B|) == b;
  }

  // An occupied bucket points at a value.
  lemma PointsAtValue(B: seq<Bucket>, sig: seq<Sig>, pos: seq<nat>, hole: int, b: nat)
    requires Indexed(B, sig, pos, hole) && b < |B| && B[b].df != 0
    ensures B[b].idx < |sig| && B[b].idx != hole && pos[B[b].idx] == b
  {
  }

  // The distance of any bucket is at most the number of buckets, so a probe
  // cannot run for more than one full circle.
  lemma DistanceBound(B: seq<Bucket>, sig: seq<Sig>, pos: seq<nat>, hole: int, b: nat)
    requires Indexed(B, sig, pos, hole) && b < |B|
    ensures B[b].df < ProbeDf(0, |B|)
  {
    if B[b].df != 0 {
      var i := B[b].idx;
      assert B[pos[i]].df == ProbeDf(sig[i].fp, Off(sig[i].home, pos[i], |B|));
    }
  }
}
