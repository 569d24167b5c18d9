/**
 Byte-pair encoding of one piece: the merge loop with its incremental cache of
 pair ranks, against plain byte-pair merging that recomputes every rank.
 */
module BytePair {
  import opened Wrappers
  import opened Bytes

  type Ranks = map<seq<byte>, int32>

  // A boundary in the piece, with the cached rank of the two parts after it.
  datatype Part = Part(start: nat, rank: int32)

  // A part without an id, or a call that does not return.
  datatype BpeError = MissingPiece(bytes: seq<byte>) | Endless

  // ---------------------------------------------------------------- loop counters

  // An unsigned 32-bit counter after k increments.
  function Counter(k: nat): nat {
    k % 0x1_0000_0000
  }

  // A loop `counter < bound` ends.
  ghost predicate Ends(bound: nat) {
    exists k :: Counter(k) >= bound
  }

  // The size of the boundary vector less two, in unsigned 64-bit arithmetic.
  function RankBound(n: nat): nat {
    (n + 1 + 0xFFFF_FFFF_FFFF_FFFE) % 0x1_0000_0000_0000_0000
  }

  lemma EndsBelow(bound: nat)
    ensures Ends(bound) <==> bound < 0x1_0000_0000
  {
    if bound < 0x1_0000_0000 {
      assert Counter(bound) >= bound;
    }
  }

  // The lengths of piece for which the first two loops end.
  predicate LoopsEnd(n: nat) {
    0 < n <= 0xFFFF_FFFE
  }

  // For the empty piece the bound of the second loop wraps around to 2^64 - 1,
  // which its counter never reaches; from 2^32 - 1 bytes on, the counter of the
  // first loop never reaches its bound.
  lemma LoopsEndIff(n: nat)
    requires n < 0xFFFF_FFFF_FFFF_FFFF
    ensures LoopsEnd(n) <==> Ends(n + 1) && Ends(RankBound(n))
    ensures n > 0 ==> RankBound(n) == n - 1
    ensures RankBound(0) == 0xFFFF_FFFF_FFFF_FFFF
  {
    EndsBelow(n + 1);
    EndsBelow(RankBound(n));
  }

  // ---------------------------------------------------------------- plain merging

  // Boundaries cut a piece into non-empty parts.
  ghost predicate Cuts(bounds: seq<nat>, n: nat) {
    && |bounds| >= 2 && bounds[0] == 0 && bounds[|bounds| - 1] == n
    && forall i, j :: 0 <= i < j < |bounds| ==> bounds[i] < bounds[j]
  }

  // INT_MAX stands for "no rank".
  function RankOf(piece: seq<byte>, ranks: Ranks, s: nat, e: nat): int32 {
    if s <= e <= |piece| && piece[s..e] in ranks then ranks[piece[s..e]] else INT_MAX
  }

  // Rank of what parts i and i+1 would merge to.
  function PairRank(piece: seq<byte>, ranks: Ranks, bounds: seq<nat>, i: nat): int32 {
    if i + 2 < |bounds| then RankOf(piece, ranks, bounds[i], bounds[i + 2]) else INT_MAX
  }

  // The leftmost pair of least rank among the first n; n if none has a rank.
  function Leftmost(piece: seq<byte>, ranks: Ranks, bounds: seq<nat>, n: nat): (r: nat)
    ensures r <= n
    ensures r == n ==> forall k :: 0 <= k < n ==> PairRank(piece, ranks, bounds, k) == INT_MAX
    ensures r < n ==>
              && PairRank(piece, ranks, bounds, r) < INT_MAX
              && (forall k :: 0 <= k < n ==> PairRank(piece, ranks, bounds, r) <= PairRank(piece, ranks, bounds, k))
              && (forall k :: 0 <= k < r ==> PairRank(piece, ranks, bounds, r) < PairRank(piece, ranks, bounds, k))
  {
    if n == 0 then 0
    else
      var m := Leftmost(piece, ranks, bounds, n - 1);
      if PairRank(piece, ranks, bounds, n - 1) < (if m < n - 1 then PairRank(piece, ranks, bounds, m) else INT_MAX)
      then n - 1
      else if m < n - 1 then m else n
  }

  function Without<T>(s: seq<T>, i: nat): seq<T>
    requires i < |s|
  {
    s[..i] + s[i + 1..]
  }

  // Merge the leftmost pair of least rank until no pair has one.
  function Merged(piece: seq<byte>, ranks: Ranks, bounds: seq<nat>): seq<nat>
    decreases |bounds|
  {
    if |bounds| < 3 then bounds
    else
      var i := Leftmost(piece, ranks, bounds, |bounds| - 2);
      if i == |bounds| - 2 then bounds else Merged(piece, ranks, Without(bounds, i + 1))
  }

  // Every byte its own part.
  function Singles(n: nat): (r: seq<nat>)
    ensures |r| == n + 1 && forall i :: 0 <= i <= n ==> r[i] == i
  {
    seq(n + 1, i => i)
  }

  // The ids of the parts, or the first part without one.
  function TokensOf(piece: seq<byte>, ranks: Ranks, bounds: seq<nat>, n: nat): Result<seq<int>, BpeError>
    requires Cuts(bounds, |piece|) && n < |bounds|
    decreases n
  {
    if n == 0 then Ok([])
    else
      assert bounds[n - 1] < bounds[n] <= bounds[|bounds| - 1];
      var part := piece[bounds[n - 1]..bounds[n]];
      var rest := TokensOf(piece, ranks, bounds, n - 1);
      if rest.Err? then rest
      else if part in ranks then Ok(rest.value + [ranks[part]]) else Err(MissingPiece(part))
  }

  // The ids of plain merging, where the loops before it end at all.
  function Encoded(piece: seq<byte>, ranks: Ranks): Result<seq<int>, BpeError> {
    if LoopsEnd(|piece|) then MergedIds(piece, ranks) else Err(Endless)
  }

  function MergedIds(piece: seq<byte>, ranks: Ranks): Result<seq<int>, BpeError>
    requires |piece| > 0
  {
    MergedCuts(piece, ranks, Singles(|piece|));
    var bounds := Merged(piece, ranks, Singles(|piece|));
    TokensOf(piece, ranks, bounds, |bounds| - 1)
  }

  lemma WithoutCuts(bounds: seq<nat>, n: nat, i: nat)
    requires Cuts(bounds, n) && 0 < i < |bounds| - 1
    ensures Cuts(Without(bounds, i), n)
  {
    var w := Without(bounds, i);
    forall a, b | 0 <= a < b < |w| ensures w[a] < w[b] {
      assert w[a] == bounds[if a < i then a else a + 1] && w[b] == bounds[if b < i then b else b + 1];
    }
  }

  lemma {:induction false} MergedCuts(piece: seq<byte>, ranks: Ranks, bounds: seq<nat>)
    requires Cuts(bounds, |piece|)
    ensures Cuts(Merged(piece, ranks, bounds), |piece|)
    decreases |bounds|
  {
    if |bounds| >= 3 {
      var i := Leftmost(piece, ranks, bounds, |bounds| - 2);
      if i < |bounds| - 2 {
        WithoutCuts(bounds, |piece|, i + 1);
        MergedCuts(piece, ranks, Without(bounds, i + 1));
      }
    }
  }

  // ---------------------------------------------------------------- the cache

  function Starts(parts: seq<Part>): (r: seq<nat>)
    ensures |r| == |parts| && forall i :: 0 <= i < |parts| ==> r[i] == parts[i].start
  {
    seq(|parts|, i requires 0 <= i < |parts| => parts[i].start)
  }

  // Every cached rank is the rank of the bytes its two parts span.
  ghost predicate Cached(piece: seq<byte>, ranks: Ranks, parts: seq<Part>) {
    forall i :: 0 <= i < |parts| ==> parts[i].rank == PairRank(piece, ranks, Starts(parts), i)
  }

  // The lookup of the merge loop, over a gap of `skip` extra boundaries.
  function GetRank(piece: seq<byte>, ranks: Ranks, parts: seq<Part>, i: nat, skip: nat): Option<int32> {
    if i + skip + 2 < |parts| then
      var s, e := parts[i].start, parts[i + skip + 2].start;
      if s <= e <= |piece| && piece[s..e] in ranks then Some(ranks[piece[s..e]]) else None
    else None
  }

  function OrNoRank(r: Option<int32>): int32 {
    if r.Some? then r.value else INT_MAX
  }

  // Two refreshed ranks and one erased boundary keep the whole cache right.
  lemma MergeKeepsCache(piece: seq<byte>, ranks: Ranks, parts: seq<Part>, parts1: seq<Part>, i: nat)
    requires Cached(piece, ranks, parts) && i + 2 < |parts| == |parts1|
    requires parts1[i] == Part(parts[i].start, OrNoRank(GetRank(piece, ranks, parts, i, 1)))
    requires i > 0 ==> parts1[i - 1] == Part(parts[i - 1].start, OrNoRank(GetRank(piece, ranks, parts, i - 1, 1)))
    requires forall k :: 0 <= k < |parts| && k != i && k != i - 1 ==> parts1[k] == parts[k]
    ensures Cached(piece, ranks, Without(parts1, i + 1))
    ensures Starts(Without(parts1, i + 1)) == Without(Starts(parts), i + 1)
  {
    hide RankOf, GetRank, PairRank;
    var q := Without(parts1, i + 1);
    var b, b1 := Starts(parts), Starts(q);
    assert b1 == Without(b, i + 1);
    forall k | 0 <= k < |q| ensures q[k].rank == PairRank(piece, ranks, b1, k) {
      var o := if k <= i then k else k + 1;
      assert q[k] == parts1[o];
      if k + 1 == i || k == i {
        WiderSpan(piece, ranks, parts, i, k);
      } else {
        assert parts1[o] == parts[o];
        SameSpan(piece, ranks, b, i, k);
      }
    }
  }

  // The two refreshed ranks are those of the pairs over the erased boundary.
  lemma WiderSpan(piece: seq<byte>, ranks: Ranks, parts: seq<Part>, i: nat, k: nat)
    requires i + 2 < |parts| && (k + 1 == i || k == i)
    ensures OrNoRank(GetRank(piece, ranks, parts, k, 1)) == PairRank(piece, ranks, Without(Starts(parts), i + 1), k)
  {
    var b1 := Without(Starts(parts), i + 1);
    assert b1[k] == parts[k].start;
    assert k + 3 < |parts| ==> b1[k + 2] == parts[k + 3].start;
  }

  // Pairs that do not touch the erased boundary span the same bytes as before.
  lemma SameSpan(piece: seq<byte>, ranks: Ranks, b: seq<nat>, i: nat, k: nat)
    requires i + 2 < |b| && k < |b| - 1 && (k + 1 < i || k > i)
    ensures PairRank(piece, ranks, Without(b, i + 1), k) == PairRank(piece, ranks, b, if k <= i then k else k + 1)
  {
    hide RankOf;
  }

  // ---------------------------------------------------------------- the loops

  method InitialParts(piece: seq<byte>, ranks: Ranks) returns (parts: seq<Part>)
    requires LoopsEnd(|piece|)
    ensures Starts(parts) == Singles(|piece|) && Cached(piece, ranks, parts)
  {
    parts := [];
    var idx := 0;
    while idx < |piece| + 1
      invariant 0 <= idx == |parts| <= |piece| + 1
      invariant forall k :: 0 <= k < idx ==> parts[k] == Part(k, INT_MAX)
    {
      parts := parts + [Part(idx, INT_MAX)];
      idx := idx + 1;
    }
    var i := 0;
    LoopsEndIff(|piece|);
    while i < RankBound(|piece|)
      invariant 0 <= i <= |parts| - 2 && |parts| == |piece| + 1
      invariant forall k :: 0 <= k < |parts| ==> parts[k].start == k
      invariant forall k :: 0 <= k < i || |parts| - 2 < k < |parts| ==>
        parts[k].rank == PairRank(piece, ranks, Singles(|piece|), k)
      invariant forall k :: i <= k < |parts| ==> parts[k].rank == INT_MAX
    {
      var rank := GetRank(piece, ranks, parts, i, 0);
      if rank.Some? {
        parts := parts[i := parts[i].(rank := rank.value)];
      }
      i := i + 1;
    }
    assert Starts(parts) == Singles(|piece|);
  }

  // Part i is the first with the least cached rank among the first n.
  ghost predicate LeastRank(parts: seq<Part>, i: nat, n: nat)
    requires i < n <= |parts|
  {
    && (forall k :: 0 <= k < n ==> parts[i].rank <= parts[k].rank)
    && (forall k :: 0 <= k < i ==> parts[i].rank < parts[k].rank)
  }

  // First pair of least cached rank; the last boundary has no pair.
  method MinRank(parts: seq<Part>) returns (rank: int32, at: nat)
    requires |parts| >= 2
    ensures rank == INT_MAX ==> forall k :: 0 <= k < |parts| - 1 ==> parts[k].rank == INT_MAX
    ensures rank < INT_MAX ==> at < |parts| - 1 && parts[at].rank == rank && LeastRank(parts, at, |parts| - 1)
  {
    rank, at := INT_MAX, 0;
    var i := 0;
    while i < |parts| - 1
      invariant 0 <= i <= |parts| - 1
      invariant rank == INT_MAX ==> forall k :: 0 <= k < i ==> parts[k].rank == INT_MAX
      invariant rank < INT_MAX ==> at < i && parts[at].rank == rank && LeastRank(parts, at, i)
    {
      if parts[i].rank < rank {
        rank, at := parts[i].rank, i;
      }
      i := i + 1;
    }
  }

  // Merge the first pair of least rank: refresh two ranks, erase one boundary.
  method MergeAt(piece: seq<byte>, ranks: Ranks, parts: seq<Part>, i: nat) returns (merged: seq<Part>)
    requires i + 2 < |parts| && Cached(piece, ranks, parts) && Cuts(Starts(parts), |piece|)
    ensures Cached(piece, ranks, merged) && Cuts(Starts(merged), |piece|)
    ensures Starts(merged) == Without(Starts(parts), i + 1)
  {
    hide Cached, Cuts, GetRank;
    merged := parts[i := parts[i].(rank := OrNoRank(GetRank(piece, ranks, parts, i, 1)))];
    if i > 0 {
      merged := merged[i - 1 := parts[i - 1].(rank := OrNoRank(GetRank(piece, ranks, parts, i - 1, 1)))];
    }
    MergeKeepsCache(piece, ranks, parts, merged, i);
    WithoutCuts(Starts(parts), |piece|, i + 1);
    merged := Without(merged, i + 1);
  }

  method MergeLoop(piece: seq<byte>, ranks: Ranks) returns (parts: seq<Part>)
    requires LoopsEnd(|piece|)
    ensures Starts(parts) == Merged(piece, ranks, Singles(|piece|)) && Cuts(Starts(parts), |piece|)
  {
    hide Cached, Merged;
    parts := InitialParts(piece, ranks);
    while true
      invariant Cuts(Starts(parts), |piece|) && Cached(piece, ranks, parts)
      invariant Merged(piece, ranks, Starts(parts)) == Merged(piece, ranks, Singles(|piece|))
      decreases |parts|
    {
      if |parts| == 1 { break; }
      var rank, i := MinRank(parts);
      if rank == INT_MAX {
        NoneLeft(piece, ranks, parts);
        break;
      }
      SamePair(piece, ranks, parts, i);
      parts := MergeAt(piece, ranks, parts, i);
    }
  }

  method BytePairMerge(piece: seq<byte>, ranks: Ranks) returns (r: Result<seq<int>, BpeError>)
    ensures r == Encoded(piece, ranks)
  {
    hide Merged, RankOf, TokensOf, Cuts;
    if !LoopsEnd(|piece|) {
      return Err(Endless);
    }
    var parts := MergeLoop(piece, ranks);
    ghost var target := Starts(parts);
    var out: seq<int> := [];
    var k := 0;
    NoTokenYet(piece, ranks, target);
    while k < |parts| - 1
      invariant 0 <= k <= |parts| - 1
      invariant Ok(out) == TokensOf(piece, ranks, target, k)
    {
      var s, e := parts[k].start, parts[k + 1].start;
      NextToken(piece, ranks, target, k);
      if piece[s..e] !in ranks {
        MissingStays(piece, ranks, target, k + 1, |target| - 1);
        return Err(MissingPiece(piece[s..e]));
      }
      out := out + [ranks[piece[s..e]]];
      k := k + 1;
    }
    return Ok(out);
  }

  lemma NextToken(piece: seq<byte>, ranks: Ranks, bounds: seq<nat>, k: nat)
    requires Cuts(bounds, |piece|) && k + 1 < |bounds|
    ensures bounds[k] < bounds[k + 1] <= |piece|
    ensures TokensOf(piece, ranks, bounds, k).Ok? ==>
              var part, ids := piece[bounds[k]..bounds[k + 1]], TokensOf(piece, ranks, bounds, k).value;
              TokensOf(piece, ranks, bounds, k + 1)
              == (if part in ranks then Ok(ids + [ranks[part] as int]) else Err(MissingPiece(part)))
  {}

  lemma NoTokenYet(piece: seq<byte>, ranks: Ranks, bounds: seq<nat>)
    requires Cuts(bounds, |piece|)
    ensures |bounds| >= 2 && TokensOf(piece, ranks, bounds, 0) == Ok([])
  {}

  lemma NoneLeft(piece: seq<byte>, ranks: Ranks, parts: seq<Part>)
    requires |parts| >= 2 && Cached(piece, ranks, parts)
    requires forall k :: 0 <= k < |parts| - 1 ==> parts[k].rank == INT_MAX
    ensures Merged(piece, ranks, Starts(parts)) == Starts(parts)
  {
    var b := Starts(parts);
    if |b| >= 3 {
      forall k | 0 <= k < |b| - 2 ensures PairRank(piece, ranks, b, k) == INT_MAX {
        assert parts[k].rank == PairRank(piece, ranks, b, k);
      }
    }
  }

  // The cached minimum is the pair plain merging picks.
  lemma SamePair(piece: seq<byte>, ranks: Ranks, parts: seq<Part>, i: nat)
    requires |parts| >= 2 && Cached(piece, ranks, parts)
    requires i < |parts| - 1 && parts[i].rank < INT_MAX && LeastRank(parts, i, |parts| - 1)
    ensures i + 2 < |parts|
    ensures Merged(piece, ranks, Starts(parts)) == Merged(piece, ranks, Without(Starts(parts), i + 1))
  {
    hide Merged, Cached, LeastRank, RankOf, Without;
    PickedPair(piece, ranks, parts, i);
    MergedStep(piece, ranks, Starts(parts));
  }

  lemma PickedPair(piece: seq<byte>, ranks: Ranks, parts: seq<Part>, i: nat)
    requires |parts| >= 2 && Cached(piece, ranks, parts)
    requires i < |parts| - 1 && parts[i].rank < INT_MAX && LeastRank(parts, i, |parts| - 1)
    ensures i + 2 < |parts|
    ensures Leftmost(piece, ranks, Starts(parts), |parts| - 2) == i
  {
    hide RankOf;
    var b := Starts(parts);
    assert parts[i].rank == PairRank(piece, ranks, b, i);
    var m := Leftmost(piece, ranks, b, |b| - 2);
    assert m < |b| - 2;
    assert parts[m].rank == PairRank(piece, ranks, b, m);
  }

  lemma MergedStep(piece: seq<byte>, ranks: Ranks, b: seq<nat>)
    requires |b| >= 3 && Leftmost(piece, ranks, b, |b| - 2) < |b| - 2
    ensures Merged(piece, ranks, b) == Merged(piece, ranks, Without(b, Leftmost(piece, ranks, b, |b| - 2) + 1))
  {
    hide Leftmost;
  }

  lemma {:induction false} MissingStays(piece: seq<byte>, ranks: Ranks, bounds: seq<nat>, k: nat, n: nat)
    requires Cuts(bounds, |piece|) && k <= n < |bounds|
    requires TokensOf(piece, ranks, bounds, k).Err?
    ensures TokensOf(piece, ranks, bounds, n) == TokensOf(piece, ranks, bounds, k)
    decreases n
  {
    if k < n {
      MissingStays(piece, ranks, bounds, k, n - 1);
    }
  }

  method BytePairEncode(piece: seq<byte>, ranks: Ranks) returns (r: Result<seq<int>, BpeError>)
    ensures r == Encoded(piece, ranks)
  {
    if |piece| == 1 {
      EncodedSingle(piece, ranks);
      if piece in ranks {
        return Ok([ranks[piece]]);
      }
      return Err(MissingPiece(piece));
    }
    r := BytePairMerge(piece, ranks);
  }

  lemma EncodedSingle(piece: seq<byte>, ranks: Ranks)
    requires |piece| == 1
    ensures Encoded(piece, ranks) == if piece in ranks then Ok([ranks[piece] as int]) else Err(MissingPiece(piece))
  {
    var b := Singles(1);
    assert |b| == 2 && Merged(piece, ranks, b) == b;
    assert Singles(|piece|) == b;
    var part := piece[b[0]..b[1]];
    assert part == piece;
    assert TokensOf(piece, ranks, b, 0) == Ok([]);
    if part in ranks {
      assert [] + [ranks[part] as int] == [ranks[part] as int];
      assert TokensOf(piece, ranks, b, 1) == Ok([ranks[part] as int]);
    }
    assert Encoded(piece, ranks) == TokensOf(piece, ranks, b, 1);
  }

  // ---------------------------------------------------------------- what merging achieves

  // Merging only stops when no neighbouring parts have a rank together.
  lemma {:induction false} MergedIsStuck(piece: seq<byte>, ranks: Ranks, bounds: seq<nat>, i: nat)
    ensures PairRank(piece, ranks, Merged(piece, ranks, bounds), i) == INT_MAX
    decreases |bounds|
  {
    hide RankOf;
    if |bounds| >= 3 {
      var m := Leftmost(piece, ranks, bounds, |bounds| - 2);
      if m < |bounds| - 2 {
        MergedStep(piece, ranks, bounds);
        MergedIsStuck(piece, ranks, Without(bounds, m + 1), i);
      }
    }
  }

  // A part is a single byte, or has a rank.
  ghost predicate Known(piece: seq<byte>, ranks: Ranks, bounds: seq<nat>)
    requires Cuts(bounds, |piece|)
  {
    forall i :: 0 <= i < |bounds| - 1 ==> PartKnown(piece, ranks, bounds[i], bounds[i + 1])
  }

  ghost predicate PartKnown(piece: seq<byte>, ranks: Ranks, s: nat, e: nat) {
    e == s + 1 || (s <= e <= |piece| && piece[s..e] in ranks)
  }

  lemma {:induction false} MergedKnown(piece: seq<byte>, ranks: Ranks, bounds: seq<nat>)
    requires Cuts(bounds, |piece|) && Known(piece, ranks, bounds)
    ensures Cuts(Merged(piece, ranks, bounds), |piece|) && Known(piece, ranks, Merged(piece, ranks, bounds))
    decreases |bounds|
  {
    hide PartKnown, RankOf;
    if |bounds| >= 3 {
      var m := Leftmost(piece, ranks, bounds, |bounds| - 2);
      if m < |bounds| - 2 {
        var w := Without(bounds, m + 1);
        WithoutCuts(bounds, |piece|, m + 1);
        RankedIsKnown(piece, ranks, bounds[m], bounds[m + 2]);
        forall i | 0 <= i < |w| - 1 ensures PartKnown(piece, ranks, w[i], w[i + 1]) {
          if i != m {
            var o := if i < m then i else i + 1;
            assert w[i] == bounds[o] && w[i + 1] == bounds[o + 1];
          } else {
            assert w[i] == bounds[m] && w[i + 1] == bounds[m + 2];
          }
        }
        MergedStep(piece, ranks, bounds);
        MergedKnown(piece, ranks, w);
      }
    }
  }

  lemma RankedIsKnown(piece: seq<byte>, ranks: Ranks, s: nat, e: nat)
    requires RankOf(piece, ranks, s, e) < INT_MAX
    ensures PartKnown(piece, ranks, s, e)
  {
  }

  // A lookup can only miss on a single byte that has no rank.
  lemma {:induction false} MissIsAByte(piece: seq<byte>, ranks: Ranks, bounds: seq<nat>, n: nat)
    requires Cuts(bounds, |piece|) && Known(piece, ranks, bounds) && n < |bounds|
    ensures var r := TokensOf(piece, ranks, bounds, n);
            r.Err? ==> r.error.MissingPiece? && |r.error.bytes| == 1 && r.error.bytes[0] in piece && r.error.bytes !in ranks
    decreases n
  {
    if n > 0 {
      MissIsAByte(piece, ranks, bounds, n - 1);
      assert bounds[n - 1] < bounds[n] <= bounds[|bounds| - 1];
      assert PartKnown(piece, ranks, bounds[n - 1], bounds[n - 1 + 1]);
    }
  }

  // When every byte of a piece has a rank and the loops end, encoding cannot
  // fail; whatever it fails on is a byte without a rank.
  lemma EncodedNeverMisses(piece: seq<byte>, ranks: Ranks)
    ensures Encoded(piece, ranks) == Err(Endless) <==> !LoopsEnd(|piece|)
    ensures LoopsEnd(|piece|) && (forall b :: b in piece ==> [b] in ranks) ==> Encoded(piece, ranks).Ok?
    ensures Encoded(piece, ranks).Err? && LoopsEnd(|piece|) ==>
              && Encoded(piece, ranks).error.MissingPiece?
              && var bytes := Encoded(piece, ranks).error.bytes;
                 |bytes| == 1 && bytes[0] in piece && bytes !in ranks
  {
    hide TokensOf, Merged;
    if LoopsEnd(|piece|) {
      MergedKnown(piece, ranks, Singles(|piece|));
      var bounds := Merged(piece, ranks, Singles(|piece|));
      MissIsAByte(piece, ranks, bounds, |bounds| - 1);
      if Encoded(piece, ranks).Err? {
        var bytes := Encoded(piece, ranks).error.bytes;
        assert bytes == [bytes[0]];
      }
    }
  }

  // ---------------------------------------------------------------- merging by rank

  // Parts k and k + 1 together are in the vocabulary.
  ghost predicate Ranked(piece: seq<byte>, ranks: Ranks, b: seq<nat>, k: nat) {
    k + 2 < |b| && b[k] < b[k + 2] <= |piece| && piece[b[k]..b[k + 2]] in ranks
  }

  // Boundary i + 1 goes: its two parts are the leftmost of those that together
  // have the least rank. INT_MAX as a rank counts as none.
  ghost predicate JoinsAt(piece: seq<byte>, ranks: Ranks, b: seq<nat>, b1: seq<nat>, i: nat) {
    && Ranked(piece, ranks, b, i) && b1 == b[..i + 1] + b[i + 2..]
    && ranks[piece[b[i]..b[i + 2]]] < INT_MAX
    && (forall k :: 0 <= k && Ranked(piece, ranks, b, k) ==>
          && ranks[piece[b[i]..b[i + 2]]] <= ranks[piece[b[k]..b[k + 2]]]
          && (k < i ==> ranks[piece[b[i]..b[i + 2]]] < ranks[piece[b[k]..b[k + 2]]]))
  }

  ghost predicate Joins(piece: seq<byte>, ranks: Ranks, b: seq<nat>, b1: seq<nat>) {
    Cuts(b, |piece|) && Cuts(b1, |piece|) && exists i :: JoinsAt(piece, ranks, b, b1, i)
  }

  // No two neighbouring parts have a rank below INT_MAX together.
  ghost predicate Stuck(piece: seq<byte>, ranks: Ranks, b: seq<nat>) {
    Cuts(b, |piece|) && forall k :: 0 <= k && Ranked(piece, ranks, b, k) ==> ranks[piece[b[k]..b[k + 2]]] == INT_MAX
  }

  // Every byte by itself at first, one join after the other, none possible in the end.
  ghost predicate MergeRun(piece: seq<byte>, ranks: Ranks, cuts: seq<seq<nat>>) {
    && cuts != [] && Stuck(piece, ranks, cuts[|cuts| - 1])
    && forall k :: 0 <= k < |cuts| - 1 ==> Joins(piece, ranks, cuts[k], cuts[k + 1])
  }

  lemma Inner(b: seq<nat>, n: nat, k: nat)
    requires Cuts(b, n) && k + 2 < |b|
    ensures b[k] < b[k + 2] <= n
  {
    assert k + 2 < |b| - 1 ==> b[k + 2] < b[|b| - 1];
  }

  lemma LeftmostJoins(piece: seq<byte>, ranks: Ranks, b: seq<nat>)
    requires Cuts(b, |piece|) && |b| >= 3
    ensures var i := Leftmost(piece, ranks, b, |b| - 2);
            if i < |b| - 2 then JoinsAt(piece, ranks, b, Without(b, i + 1), i) else Stuck(piece, ranks, b)
  {
    hide Leftmost;
    var i := Leftmost(piece, ranks, b, |b| - 2);
    forall k: nat | k + 2 < |b|
      ensures if Ranked(piece, ranks, b, k) then PairRank(piece, ranks, b, k) == ranks[piece[b[k]..b[k + 2]]]
              else PairRank(piece, ranks, b, k) == INT_MAX
    {
      Inner(b, |piece|, k);
    }
    forall k | 0 <= k && Ranked(piece, ranks, b, k) ensures 0 <= k < |b| - 2 {
    }
  }

  lemma JoinSame(piece: seq<byte>, ranks: Ranks, b: seq<nat>, b1: seq<nat>, b2: seq<nat>, i: nat, j: nat)
    requires JoinsAt(piece, ranks, b, b1, i) && JoinsAt(piece, ranks, b, b2, j)
    ensures i == j && b1 == b2
  {
    assert Ranked(piece, ranks, b, i) && Ranked(piece, ranks, b, j);
    if i != j {
      assert false;
    }
  }

  // At most one join is possible.
  lemma JoinsOnce(piece: seq<byte>, ranks: Ranks, b: seq<nat>, b1: seq<nat>, b2: seq<nat>)
    requires Joins(piece, ranks, b, b1)
    ensures Joins(piece, ranks, b, b2) ==> b1 == b2
    ensures !Stuck(piece, ranks, b)
  {
    hide Cuts;
    var i: nat :| JoinsAt(piece, ranks, b, b1, i);
    assert Ranked(piece, ranks, b, i);
    hide JoinsAt;
    if Joins(piece, ranks, b, b2) {
      var j: nat :| JoinsAt(piece, ranks, b, b2, j);
      JoinSame(piece, ranks, b, b1, b2, i, j);
    }
  }

  // Plain merging is such a run from any boundaries.
  lemma {:induction false} MergedRuns(piece: seq<byte>, ranks: Ranks, b: seq<nat>) returns (cuts: seq<seq<nat>>)
    requires Cuts(b, |piece|)
    ensures MergeRun(piece, ranks, cuts) && cuts[0] == b && cuts[|cuts| - 1] == Merged(piece, ranks, b)
    decreases |b|
  {
    hide Cuts, JoinsAt, Stuck, Leftmost;
    cuts := [b];
    if |b| < 3 {
      ShortStuck(piece, ranks, b);
    } else {
      LeftmostJoins(piece, ranks, b);
      var i := Leftmost(piece, ranks, b, |b| - 2);
      if i < |b| - 2 {
        WithoutCuts(b, |piece|, i + 1);
        var rest := MergedRuns(piece, ranks, Without(b, i + 1));
        assert Joins(piece, ranks, b, rest[0]);
        cuts := [b] + rest;
      }
    }
  }

  lemma ShortStuck(piece: seq<byte>, ranks: Ranks, b: seq<nat>)
    requires Cuts(b, |piece|) && |b| < 3
    ensures Stuck(piece, ranks, b)
  {}

  // There is one run from given boundaries.
  lemma {:induction false} OneRun(piece: seq<byte>, ranks: Ranks, cuts: seq<seq<nat>>, cuts1: seq<seq<nat>>)
    requires MergeRun(piece, ranks, cuts) && MergeRun(piece, ranks, cuts1) && cuts[0] == cuts1[0]
    ensures cuts == cuts1
    decreases |cuts|
  {
    hide Cuts, Stuck, Joins;
    if |cuts| > 1 {
      JoinsOnce(piece, ranks, cuts[0], cuts[1], cuts[1]);
    }
    if |cuts1| > 1 {
      JoinsOnce(piece, ranks, cuts1[0], cuts1[1], cuts1[1]);
    }
    if |cuts| > 1 && |cuts1| > 1 {
      JoinsOnce(piece, ranks, cuts[0], cuts[1], cuts1[1]);
      TailRun(piece, ranks, cuts);
      TailRun(piece, ranks, cuts1);
      OneRun(piece, ranks, cuts[1..], cuts1[1..]);
      assert cuts == [cuts[0]] + cuts[1..] && cuts1 == [cuts1[0]] + cuts1[1..];
    }
  }

  lemma TailRun(piece: seq<byte>, ranks: Ranks, cuts: seq<seq<nat>>)
    requires MergeRun(piece, ranks, cuts) && |cuts| > 1
    ensures MergeRun(piece, ranks, cuts[1..]) && cuts[1..][0] == cuts[1]
  {
    hide Stuck, Joins;
    forall k | 0 <= k < |cuts[1..]| - 1 ensures Joins(piece, ranks, cuts[1..][k], cuts[1..][k + 1]) {
      assert Joins(piece, ranks, cuts[k + 1], cuts[k + 2]);
    }
  }

  // Part k is in the vocabulary.
  ghost predicate Spelled(piece: seq<byte>, ranks: Ranks, b: seq<nat>, k: nat) {
    k + 1 < |b| && b[k] < b[k + 1] <= |piece| && piece[b[k]..b[k + 1]] in ranks
  }

  ghost predicate HasId(piece: seq<byte>, ranks: Ranks, b: seq<nat>, k: nat, id: int) {
    Spelled(piece, ranks, b, k) && id == ranks[piece[b[k]..b[k + 1]]] as int
  }

  // Part k is the first that is not in the vocabulary.
  ghost predicate MissesAt(piece: seq<byte>, ranks: Ranks, b: seq<nat>, k: nat, error: BpeError) {
    && k + 1 < |b| && b[k] < b[k + 1] <= |piece|
    && piece[b[k]..b[k + 1]] !in ranks && error == MissingPiece(piece[b[k]..b[k + 1]])
    && forall j :: 0 <= j < k ==> Spelled(piece, ranks, b, j)
  }

  lemma {:induction false} TokensAre(piece: seq<byte>, ranks: Ranks, b: seq<nat>, n: nat)
    requires Cuts(b, |piece|) && n < |b|
    ensures match TokensOf(piece, ranks, b, n)
            case Ok(ids) => |ids| == n && forall k :: 0 <= k < n ==> HasId(piece, ranks, b, k, ids[k])
            case Err(error) => exists k: nat :: k < n && MissesAt(piece, ranks, b, k, error)
    decreases n
  {
    if n > 0 {
      assert b[n - 1] < b[n] <= b[|b| - 1];
      TokensAre(piece, ranks, b, n - 1);
      if TokensOf(piece, ranks, b, n - 1).Ok? && piece[b[n - 1]..b[n]] !in ranks {
        assert piece[b[n - 1]..b[n - 1 + 1]] == piece[b[n - 1]..b[n]];
        forall j | 0 <= j < n - 1 ensures Spelled(piece, ranks, b, j) {
          assert HasId(piece, ranks, b, j, TokensOf(piece, ranks, b, n - 1).value[j]);
        }
        assert MissesAt(piece, ranks, b, n - 1, TokensOf(piece, ranks, b, n).error);
      }
    }
  }

  // What a piece is encoded to: the ranks of the parts of the one run of joins
  // from its single bytes.
  lemma EncodedByRank(piece: seq<byte>, ranks: Ranks, cuts: seq<seq<nat>>)
    requires LoopsEnd(|piece|) && MergeRun(piece, ranks, cuts)
    requires |cuts[0]| == |piece| + 1 && forall i :: 0 <= i <= |piece| ==> cuts[0][i] == i
    ensures var b := cuts[|cuts| - 1];
            match Encoded(piece, ranks)
            case Ok(ids) => |ids| == |b| - 1 && forall k :: 0 <= k < |ids| ==> HasId(piece, ranks, b, k, ids[k])
            case Err(error) => exists k: nat :: MissesAt(piece, ranks, b, k, error)
  {
    hide Joins, TokensOf, Merged, HasId, MissesAt;
    assert cuts[0] == Singles(|piece|);
    var run := MergedRuns(piece, ranks, Singles(|piece|));
    OneRun(piece, ranks, cuts, run);
    var b := cuts[|cuts| - 1];
    TokensAre(piece, ranks, b, |b| - 1);
  }

  // And there is such a run for every piece.
  lemma EncodedHasRun(piece: seq<byte>, ranks: Ranks) returns (cuts: seq<seq<nat>>)
    requires |piece| > 0
    ensures MergeRun(piece, ranks, cuts) && |cuts[0]| == |piece| + 1 && forall i :: 0 <= i <= |piece| ==> cuts[0][i] == i
  {
    hide Joins, Stuck, Merged;
    cuts := MergedRuns(piece, ranks, Singles(|piece|));
  }
}
