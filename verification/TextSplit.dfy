/**
 Splitting a text by a list of expressions and mapping the pieces to the byte
 alphabet. The general-purpose regular-expression engine is represented by the
 ordered, disjoint matches it reports in each segment.
 */
module TextSplit {
  import opened Wrappers
  import opened Bytes
  import opened Utf8
  import opened ByteAlphabet
  import Regex
  import opened Scanner

  datatype Match = Match(position: nat, length: nat)

  datatype Stage = Gpt2Stage | Llama3Stage | GeneralStage

  datatype SplitError = Codec(error: CodecError) | RegexFailed

  // The matches an engine reports in a segment of the given length.
  ghost predicate InOrder(ms: seq<Match>, from: nat, length: nat) {
    if ms == [] then from <= length
    else from <= ms[0].position && InOrder(ms[1..], ms[0].position + ms[0].length, length)
  }

  // One list of matches per segment.
  ghost predicate Reports(matches: seq<seq<Match>>, offsets: seq<nat>) {
    |matches| == |offsets| && forall k :: 0 <= k < |offsets| ==> InOrder(matches[k], 0, offsets[k])
  }

  // ---------------------------------------------------------------- refinement of boundaries

  // Where a list of lengths cuts, starting from `start`.
  ghost function Cuts(offsets: seq<nat>, start: nat): set<nat> {
    if offsets == [] then {start} else {start} + Cuts(offsets[1..], start + offsets[0])
  }

  // `fine` covers the same stretch as `coarse` and cuts wherever it does.
  ghost predicate Refines(fine: seq<nat>, coarse: seq<nat>) {
    Sum(fine) == Sum(coarse) && forall d :: Cuts(coarse, d) <= Cuts(fine, d)
  }

  lemma {:induction false} SumConcat(a: seq<nat>, b: seq<nat>)
    ensures Sum(a + b) == Sum(a) + Sum(b)
  {
    if a == [] {
      assert a + b == b;
    } else {
      assert (a + b)[1..] == a[1..] + b;
      SumConcat(a[1..], b);
    }
  }

  lemma {:induction false} CutsConcat(a: seq<nat>, b: seq<nat>, d: nat)
    ensures Cuts(a + b, d) == Cuts(a, d) + Cuts(b, d + Sum(a))
    decreases |a|
  {
    if a == [] {
      assert a + b == b;
      assert d in Cuts(b, d);
    } else {
      assert (a + b)[1..] == a[1..] + b;
      CutsConcat(a[1..], b, d + a[0]);
    }
  }

  lemma {:induction false} CutsEnds(a: seq<nat>, d: nat)
    ensures d in Cuts(a, d) && d + Sum(a) in Cuts(a, d)
    decreases |a|
  {
    if a != [] {
      CutsEnds(a[1..], d + a[0]);
    }
  }

  // Replacing the first length by pieces that add up to it refines.
  lemma RefinesCons(piece: seq<nat>, fine: seq<nat>, coarse: seq<nat>)
    requires coarse != [] && Sum(piece) == coarse[0] && Refines(fine, coarse[1..])
    ensures Refines(piece + fine, coarse)
  {
    SumConcat(piece, fine);
    forall d ensures Cuts(coarse, d) <= Cuts(piece + fine, d) {
      CutsConcat(piece, fine, d);
      CutsEnds(piece, d);
      assert Cuts(coarse[1..], d + coarse[0]) <= Cuts(fine, d + coarse[0]);
    }
  }

  lemma RefinesTrans(a: seq<nat>, b: seq<nat>, c: seq<nat>)
    requires Refines(a, b) && Refines(b, c)
    ensures Refines(a, c)
  {
    forall d ensures Cuts(c, d) <= Cuts(a, d) {
      assert Cuts(c, d) <= Cuts(b, d) <= Cuts(a, d);
    }
  }

  // ---------------------------------------------------------------- the custom splitters

  lemma {:induction false} SplitSum(re: Regex.Re, s: seq<nat>, prev: nat, pos: nat, hi: nat)
    requires prev <= pos <= hi <= |s|
    ensures Sum(Regex.Split(re, s, prev, pos, hi)) == hi - prev
    ensures forall k :: 0 <= k < |Regex.Split(re, s, prev, pos, hi)| ==> Regex.Split(re, s, prev, pos, hi)[k] > 0
    decreases hi - pos
  {
    hide Regex.First;
    if pos < hi {
      var f := Regex.First(re, s, pos, hi);
      if f.Some? && pos < f.value <= hi {
        SplitSum(re, s, f.value, f.value, hi);
        var gap := if prev < pos then [pos - prev] else [];
        SumConcat(gap + [f.value - pos], Regex.Split(re, s, f.value, f.value, hi));
        SumConcat(gap, [f.value - pos]);
      } else {
        SplitSum(re, s, prev, pos + 1, hi);
      }
    }
  }

  lemma {:induction false} SegmentsRefine(re: Regex.Re, s: seq<nat>, offsets: seq<nat>, start: nat)
    requires start + Sum(offsets) <= |s|
    ensures Refines(SplitSegments(re, s, offsets, start), offsets)
    decreases |offsets|
  {
    if offsets != [] {
      SegmentsRefine(re, s, offsets[1..], start + offsets[0]);
      SplitSum(re, s, start, start, start + offsets[0]);
      RefinesCons(Regex.Split(re, s, start, start, start + offsets[0]),
                  SplitSegments(re, s, offsets[1..], start + offsets[0]), offsets);
    }
  }

  // ---------------------------------------------------------------- the general splitter

  // Gaps and matches of one segment, and what is left behind the last match.
  function Pieces(ms: seq<Match>, from: nat, length: nat): seq<nat> {
    if ms == [] then (if from < length then [length - from] else [])
    else (if ms[0].position > from then [ms[0].position - from] else []) + [ms[0].length]
         + Pieces(ms[1..], ms[0].position + ms[0].length, length)
  }

  lemma {:induction false} PiecesSum(ms: seq<Match>, from: nat, length: nat)
    requires InOrder(ms, from, length)
    ensures from <= length && Sum(Pieces(ms, from, length)) == length - from
    decreases |ms|
  {
    if ms != [] {
      var next := ms[0].position + ms[0].length;
      PiecesSum(ms[1..], next, length);
      var gap := if ms[0].position > from then [ms[0].position - from] else [];
      SumConcat(gap + [ms[0].length], Pieces(ms[1..], next, length));
      SumConcat(gap, [ms[0].length]);
    }
  }

  function AllPieces(matches: seq<seq<Match>>, offsets: seq<nat>): seq<nat>
    requires |matches| == |offsets|
  {
    if offsets == [] then [] else Pieces(matches[0], 0, offsets[0]) + AllPieces(matches[1..], offsets[1..])
  }

  lemma {:induction false} GeneralRefines(matches: seq<seq<Match>>, offsets: seq<nat>)
    requires Reports(matches, offsets)
    ensures Refines(AllPieces(matches, offsets), offsets)
    decreases |offsets|
  {
    if offsets != [] {
      GeneralRefines(matches[1..], offsets[1..]);
      PiecesSum(matches[0], 0, offsets[0]);
      RefinesCons(Pieces(matches[0], 0, offsets[0]), AllPieces(matches[1..], offsets[1..]), offsets);
    }
  }

  // Where the matches of a segment that starts at `base` begin and end.
  ghost predicate MatchEdge(ms: seq<Match>, base: nat, d: nat) {
    exists m :: m in ms && (d == base + m.position || d == base + m.position + m.length)
  }

  // A gap, if there is one, and a match.
  function GapAndMatch(m: Match, from: nat): seq<nat> {
    (if m.position > from then [m.position - from] else []) + [m.length]
  }

  lemma GapCuts(m: Match, from: nat, base: nat, d: nat)
    requires from <= m.position
    ensures Sum(GapAndMatch(m, from)) == m.position + m.length - from
    ensures d in Cuts(GapAndMatch(m, from), base + from)
            <==> d == base + from || d == base + m.position || d == base + m.position + m.length
  {
    assert [m.length][1..] == [];
    if m.position > from {
      var gap := [m.position - from];
      assert gap[1..] == [];
      CutsConcat(gap, [m.length], base + from);
      SumConcat(gap, [m.length]);
    } else {
      assert [] + [m.length] == [m.length];
    }
  }

  lemma PiecesFirst(ms: seq<Match>, from: nat, length: nat)
    requires ms != []
    ensures Pieces(ms, from, length)
         == GapAndMatch(ms[0], from) + Pieces(ms[1..], ms[0].position + ms[0].length, length)
  {}

  lemma OrderFirst(ms: seq<Match>, from: nat, length: nat)
    requires InOrder(ms, from, length)
    ensures from <= length
    ensures ms != [] ==> from <= ms[0].position && InOrder(ms[1..], ms[0].position + ms[0].length, length)
  {
    PiecesSum(ms, from, length);
  }

  lemma LastCuts(from: nat, length: nat, base: nat, d: nat)
    requires from <= length
    ensures d in Cuts(Pieces([], from, length), base + from) <==> d == base + from || d == base + length
  {
    assert from < length ==> [length - from][1..] == [];
  }

  // Within a segment, the cuts are its ends and the ends of its matches.
  lemma {:induction false} PiecesCuts(ms: seq<Match>, from: nat, length: nat, base: nat, d: nat)
    requires InOrder(ms, from, length)
    ensures d in Cuts(Pieces(ms, from, length), base + from)
            <==> d == base + from || MatchEdge(ms, base, d) || d == base + length
    decreases |ms|
  {
    hide Cuts, Pieces, InOrder, GapAndMatch, Sum;
    OrderFirst(ms, from, length);
    if ms == [] {
      LastCuts(from, length, base, d);
      assert !MatchEdge(ms, base, d);
    } else {
      hide MatchEdge;
      var next := ms[0].position + ms[0].length;
      PiecesFirst(ms, from, length);
      PiecesCuts(ms[1..], next, length, base, d);
      GapCuts(ms[0], from, base, d);
      CutsConcat(GapAndMatch(ms[0], from), Pieces(ms[1..], next, length), base + from);
      EdgeFirst(ms, base, d);
    }
  }

  lemma EdgeFirst(ms: seq<Match>, base: nat, d: nat)
    requires ms != []
    ensures MatchEdge(ms, base, d) <==>
              d == base + ms[0].position || d == base + ms[0].position + ms[0].length || MatchEdge(ms[1..], base, d)
  {
    if MatchEdge(ms, base, d) {
      var m :| m in ms && (d == base + m.position || d == base + m.position + m.length);
      assert m == ms[0] || m in ms[1..];
    }
  }

  // Some segment has a match that begins or ends there.
  ghost predicate SegmentEdge(matches: seq<seq<Match>>, offsets: seq<nat>, start: nat, d: nat) {
    exists g :: 0 <= g < |matches| && g < |offsets| && MatchEdge(matches[g], start + Sum(offsets[..g]), d)
  }

  // All cuts of the general splitter: those there were, and where a reported
  // match begins or ends.
  lemma {:induction false} GeneralCuts(matches: seq<seq<Match>>, offsets: seq<nat>, start: nat, d: nat)
    requires Reports(matches, offsets)
    ensures d in Cuts(AllPieces(matches, offsets), start) <==> d in Cuts(offsets, start) || SegmentEdge(matches, offsets, start, d)
    decreases |offsets|
  {
    if offsets == [] {
      assert !SegmentEdge(matches, offsets, start, d);
    } else {
      ReportsRest(matches, offsets);
      hide InOrder, MatchEdge, SegmentEdge, Pieces, Cuts, Sum, AllPieces, Reports;
      GeneralCuts(matches[1..], offsets[1..], start + offsets[0], d);
      FirstSegmentCuts(matches, offsets, start, d);
      CutsFirst(offsets, start);
      SegmentFirst(matches, offsets, start, d);
    }
  }

  lemma FirstSegmentCuts(matches: seq<seq<Match>>, offsets: seq<nat>, start: nat, d: nat)
    requires |matches| == |offsets| > 0 && InOrder(matches[0], 0, offsets[0])
    ensures d in Cuts(AllPieces(matches, offsets), start) <==>
              || d == start || MatchEdge(matches[0], start, d) || d == start + offsets[0]
              || d in Cuts(AllPieces(matches[1..], offsets[1..]), start + offsets[0])
  {
    hide InOrder, MatchEdge, Pieces, Cuts, Sum, AllPieces;
    var pieces, rest := Pieces(matches[0], 0, offsets[0]), AllPieces(matches[1..], offsets[1..]);
    AllPiecesFirst(matches, offsets);
    PiecesSum(matches[0], 0, offsets[0]);
    PiecesCuts(matches[0], 0, offsets[0], start, d);
    CutsConcat(pieces, rest, start);
  }

  lemma ReportsRest(matches: seq<seq<Match>>, offsets: seq<nat>)
    requires Reports(matches, offsets) && offsets != []
    ensures |matches| == |offsets| && InOrder(matches[0], 0, offsets[0]) && Reports(matches[1..], offsets[1..])
  {
    hide InOrder;
  }

  lemma AllPiecesFirst(matches: seq<seq<Match>>, offsets: seq<nat>)
    requires |matches| == |offsets| > 0
    ensures AllPieces(matches, offsets) == Pieces(matches[0], 0, offsets[0]) + AllPieces(matches[1..], offsets[1..])
  {}

  lemma CutsFirst(offsets: seq<nat>, start: nat)
    requires offsets != []
    ensures Cuts(offsets, start) == {start} + Cuts(offsets[1..], start + offsets[0])
    ensures start + offsets[0] in Cuts(offsets[1..], start + offsets[0])
  {
    CutsEnds(offsets[1..], start + offsets[0]);
  }

  // Segment g + 1 of all is segment g of the rest.
  lemma NextSegment(matches: seq<seq<Match>>, offsets: seq<nat>, start: nat, d: nat, g: nat)
    requires |matches| == |offsets| && g + 1 < |offsets|
    ensures MatchEdge(matches[g + 1], start + Sum(offsets[..g + 1]), d)
       <==> MatchEdge(matches[1..][g], start + offsets[0] + Sum(offsets[1..][..g]), d)
  {
    hide MatchEdge;
    assert offsets[..g + 1][0] == offsets[0] && offsets[..g + 1][1..] == offsets[1..][..g];
  }

  lemma SegmentFirst(matches: seq<seq<Match>>, offsets: seq<nat>, start: nat, d: nat)
    requires |matches| == |offsets| > 0
    ensures SegmentEdge(matches, offsets, start, d) <==>
              MatchEdge(matches[0], start, d) || SegmentEdge(matches[1..], offsets[1..], start + offsets[0], d)
  {
    assert start + Sum(offsets[..0]) == start;
    hide MatchEdge, Sum;
    if SegmentEdge(matches, offsets, start, d) {
      var g :| 0 <= g < |matches| && MatchEdge(matches[g], start + Sum(offsets[..g]), d);
      if g > 0 {
        NextSegment(matches, offsets, start, d, g - 1);
      }
    }
    if SegmentEdge(matches[1..], offsets[1..], start + offsets[0], d) {
      var g :| 0 <= g < |matches[1..]| && MatchEdge(matches[1..][g], start + offsets[0] + Sum(offsets[1..][..g]), d);
      NextSegment(matches, offsets, start, d, g);
      assert MatchEdge(matches[g + 1], start + Sum(offsets[..g + 1]), d);
    }
    if MatchEdge(matches[0], start, d) {
      assert MatchEdge(matches[0], start + Sum(offsets[..0]), d);
    }
  }

  lemma PiecesEnd(from: nat, length: nat)
    ensures Pieces([], from, length) == if from < length then [length - from] else []
  {
  }

  lemma PiecesStep(ms: seq<Match>, k: nat, from: nat, length: nat)
    requires k < |ms|
    ensures Pieces(ms[k..], from, length) ==
            ((if ms[k].position > from then [ms[k].position - from] else []) + [ms[k].length])
            + Pieces(ms[k + 1..], ms[k].position + ms[k].length, length)
  {
    assert ms[k..][1..] == ms[k + 1..];
  }

  method SplitSegmentByMatches(ms: seq<Match>, length: nat) returns (out: seq<nat>)
    ensures out == Pieces(ms, 0, length)
  {
    hide Pieces;
    out := [];
    var startIdx: nat := 0;
    var k := 0;
    assert ms[0..] == ms;
    while k < |ms|
      invariant 0 <= k <= |ms|
      invariant out + Pieces(ms[k..], startIdx, length) == Pieces(ms, 0, length)
    {
      var m := ms[k];
      PiecesStep(ms, k, startIdx, length);
      ghost var rest := Pieces(ms[k + 1..], m.position + m.length, length);
      ghost var before, step := out, (if m.position > startIdx then [m.position - startIdx] else []) + [m.length];
      assert (before + step) + rest == before + (step + rest);
      if m.position > startIdx {
        out := out + [m.position - startIdx];
      }
      out := out + [m.length];
      assert out == before + step;
      startIdx := m.position + m.length;
      k := k + 1;
    }
    assert ms[k..] == [];
    PiecesEnd(startIdx, length);
    if startIdx < length {
      out := out + [length - startIdx];
    } else {
      assert out + [] == out;
    }
  }

  method SplitByMatches(matches: seq<seq<Match>>, offsets: seq<nat>) returns (out: seq<nat>)
    requires |matches| == |offsets|
    ensures out == AllPieces(matches, offsets)
  {
    out := [];
    var k := 0;
    assert offsets[0..] == offsets && matches[0..] == matches;
    while k < |offsets|
      invariant 0 <= k <= |offsets|
      invariant out + AllPieces(matches[k..], offsets[k..]) == AllPieces(matches, offsets)
    {
      assert offsets[k..][1..] == offsets[k + 1..] && matches[k..][1..] == matches[k + 1..];
      var pieces := SplitSegmentByMatches(matches[k], offsets[k]);
      ghost var rest := AllPieces(matches[k + 1..], offsets[k + 1..]);
      assert (out + pieces) + rest == out + (pieces + rest);
      out := out + pieces;
      k := k + 1;
    }
    assert out + [] == out;
  }

  // ---------------------------------------------------------------- all stages

  // What the engine reports for stage k on the segments left by the stages
  // before it; None where it rejects the expression.
  type Engine = (nat, seq<nat>) -> Option<seq<seq<Match>>>

  ghost predicate Sound(engine: Engine) {
    forall k, offsets :: engine(k, offsets).Some? ==> Reports(engine(k, offsets).value, offsets)
  }

  // What a custom splitter makes of the segments; the engine has none.
  function CustomCuts(t: Tables, cpts: seq<nat>, stage: Stage, offsets: seq<nat>): seq<nat>
    requires Sum(offsets) <= |cpts|
  {
    match stage
    case Gpt2Stage => SplitSegments(Gpt2(t), cpts, offsets, 0)
    case Llama3Stage => SplitSegments(Llama3(t, t.lower), cpts, offsets, 0)
    case GeneralStage => []
  }

  // A custom splitter that returns no token at all falls through to the engine.
  function StageCuts(t: Tables, cpts: seq<nat>, stage: Stage, offsets: seq<nat>, k: nat, engine: Engine): Option<seq<nat>>
    requires Sum(offsets) <= |cpts| && Sound(engine)
  {
    if CustomCuts(t, cpts, stage, offsets) != [] then Some(CustomCuts(t, cpts, stage, offsets))
    else
      match engine(k, offsets)
      case None => None
      case Some(matches) => Some(AllPieces(matches, offsets))
  }

  lemma StageRefines(t: Tables, cpts: seq<nat>, stage: Stage, offsets: seq<nat>, k: nat, engine: Engine)
    requires Sum(offsets) <= |cpts| && Sound(engine)
    ensures var r := StageCuts(t, cpts, stage, offsets, k, engine);
            r.Some? ==> Refines(r.value, offsets)
  {
    hide Refines, Cuts, Regex.Split, SplitSegments, AllPieces;
    if CustomCuts(t, cpts, stage, offsets) != [] {
      match stage {
        case Gpt2Stage => SegmentsRefine(Gpt2(t), cpts, offsets, 0);
        case Llama3Stage => SegmentsRefine(Llama3(t, t.lower), cpts, offsets, 0);
        case GeneralStage =>
      }
    } else if engine(k, offsets).Some? {
      GeneralRefines(engine(k, offsets).value, offsets);
    }
  }

  // The boundaries after the first k expressions; None once the engine has
  // rejected one of them.
  function CutsAfter(t: Tables, cpts: seq<nat>, stages: seq<Stage>, engine: Engine, k: nat): (r: Option<seq<nat>>)
    requires Sound(engine) && k <= |stages|
    ensures r.Some? ==> Sum(r.value) == |cpts|
  {
    if k == 0 then
      assert [|cpts|][1..] == [];
      Some([|cpts|])
    else
      match CutsAfter(t, cpts, stages, engine, k - 1)
      case None => None
      case Some(offsets) =>
        StageRefines(t, cpts, stages[k - 1], offsets, k - 1, engine);
        StageCuts(t, cpts, stages[k - 1], offsets, k - 1, engine)
  }

  // Every expression only adds boundaries to those of the expressions before it.
  lemma {:induction false} LaterRefines(t: Tables, cpts: seq<nat>, stages: seq<Stage>, engine: Engine, j: nat, k: nat)
    requires Sound(engine) && j <= k <= |stages| && CutsAfter(t, cpts, stages, engine, k).Some?
    ensures CutsAfter(t, cpts, stages, engine, j).Some?
    ensures Refines(CutsAfter(t, cpts, stages, engine, k).value, CutsAfter(t, cpts, stages, engine, j).value)
    decreases k
  {
    hide Refines, StageCuts, Sound;
    var now := CutsAfter(t, cpts, stages, engine, k).value;
    if j == k {
      RefinesSelf(now);
    } else {
      LaterRefines(t, cpts, stages, engine, j, k - 1);
      var before := CutsAfter(t, cpts, stages, engine, k - 1).value;
      StageRefines(t, cpts, stages[k - 1], before, k - 1, engine);
      RefinesTrans(now, before, CutsAfter(t, cpts, stages, engine, j).value);
    }
  }

  method SplitStages(t: Tables, cpts: seq<nat>, stages: seq<Stage>, engine: Engine) returns (r: Option<seq<nat>>)
    requires Classified(t) && CodePoints(cpts) && Sound(engine)
    ensures r == CutsAfter(t, cpts, stages, engine, |stages|)
  {
    hide StageCuts, Classified, Sound;
    var offsets: seq<nat> := [|cpts|];
    var k := 0;
    while k < |stages|
      invariant 0 <= k <= |stages| && CutsAfter(t, cpts, stages, engine, k) == Some(offsets)
    {
      var next := SplitStage(t, cpts, stages[k], offsets, k, engine);
      if next.None? {
        NoneStays(t, cpts, stages, engine, k + 1, |stages|);
        return None;
      }
      offsets := next.value;
      k := k + 1;
    }
    return Some(offsets);
  }

  lemma {:induction false} NoneStays(t: Tables, cpts: seq<nat>, stages: seq<Stage>, engine: Engine, j: nat, k: nat)
    requires Sound(engine) && j <= k <= |stages| && CutsAfter(t, cpts, stages, engine, j).None?
    ensures CutsAfter(t, cpts, stages, engine, k).None?
    decreases k
  {
    hide StageCuts, Sound;
    if j < k {
      NoneStays(t, cpts, stages, engine, j, k - 1);
    }
  }

  lemma RefinesSelf(offsets: seq<nat>)
    ensures Refines(offsets, offsets)
  {
  }

  method SplitStage(t: Tables, cpts: seq<nat>, stage: Stage, offsets: seq<nat>, k: nat, engine: Engine)
    returns (r: Option<seq<nat>>)
    requires Classified(t) && CodePoints(cpts) && Sound(engine) && Sum(offsets) == |cpts|
    ensures r == StageCuts(t, cpts, stage, offsets, k, engine)
  {
    hide Regex.Split, Classified, SplitSegments, AllPieces;
    var tmp: seq<nat> := [];
    match stage {
      case Gpt2Stage => tmp := ScanGpt2(t, cpts, offsets);
      case Llama3Stage => tmp := ScanLlama3(t, cpts, offsets);
      case GeneralStage =>
    }
    if tmp != [] {
      return Some(tmp);
    }
    var matches := engine(k, offsets);
    if matches.None? {
      return None;
    }
    var pieces := SplitByMatches(matches.value, offsets);
    return Some(pieces);
  }

  // Inside segment g, the tokens the expression finds there are cuts.
  lemma {:induction false} TokensAreCuts(re: Regex.Re, s: seq<nat>, offsets: seq<nat>, start: nat, g: nat)
    requires start + Sum(offsets) <= |s| && g < |offsets|
    ensures start + Sum(offsets[..g]) + offsets[g] <= |s|
    ensures var from := start + Sum(offsets[..g]);
            Cuts(Regex.Split(re, s, from, from, from + offsets[g]), from) <= Cuts(SplitSegments(re, s, offsets, start), start)
    decreases |offsets|
  {
    hide Regex.Split, Cuts;
    var next := start + offsets[0];
    SplitSum(re, s, start, start, next);
    CutsConcat(Regex.Split(re, s, start, start, next), SplitSegments(re, s, offsets[1..], next), start);
    if g == 0 {
      assert offsets[..0] == [];
    } else {
      assert offsets[..g][0] == offsets[0] && offsets[..g][1..] == offsets[1..][..g - 1];
      TokensAreCuts(re, s, offsets[1..], next, g - 1);
    }
  }

  // What stage j adds to the cuts the stages before it left: where a reported
  // match begins or ends, or a token the custom expression finds in a segment.
  ghost predicate Obeyed(t: Tables, cpts: seq<nat>, stage: Stage, before: seq<nat>, j: nat, engine: Engine, cuts: set<nat>)
    requires Sum(before) <= |cpts|
  {
    match stage
    case GeneralStage =>
      engine(j, before).Some? && forall d: nat :: SegmentEdge(engine(j, before).value, before, 0, d) ==> d in cuts
    case Gpt2Stage => TokensIn(Gpt2(t), cpts, before, cuts)
    case Llama3Stage => TokensIn(Llama3(t, t.lower), cpts, before, cuts)
  }

  ghost predicate TokensIn(re: Regex.Re, s: seq<nat>, offsets: seq<nat>, cuts: set<nat>) {
    forall g: nat :: g < |offsets| ==> TokensOfIn(re, s, offsets, g, cuts)
  }

  ghost predicate TokensOfIn(re: Regex.Re, s: seq<nat>, offsets: seq<nat>, g: nat, cuts: set<nat>)
    requires g < |offsets|
  {
    var from := Sum(offsets[..g]);
    from + offsets[g] <= |s| && Cuts(Regex.Split(re, s, from, from, from + offsets[g]), from) <= cuts
  }

  lemma AllTokensIn(re: Regex.Re, s: seq<nat>, offsets: seq<nat>)
    requires Sum(offsets) <= |s|
    ensures TokensIn(re, s, offsets, Cuts(SplitSegments(re, s, offsets, 0), 0))
  {
    hide Regex.Split, Cuts, Sum, SplitSegments;
    forall g: nat | g < |offsets| ensures TokensOfIn(re, s, offsets, g, Cuts(SplitSegments(re, s, offsets, 0), 0)) {
      TokensAreCuts(re, s, offsets, 0, g);
    }
  }

  lemma StageObeyed(t: Tables, cpts: seq<nat>, stage: Stage, before: seq<nat>, j: nat, engine: Engine)
    requires Sum(before) == |cpts| > 0 && Sound(engine)
    ensures var r := StageCuts(t, cpts, stage, before, j, engine);
            r.Some? ==> Obeyed(t, cpts, stage, before, j, engine, Cuts(r.value, 0))
  {
    hide Regex.Split, Cuts, SplitSegments, AllPieces, SegmentEdge, TokensIn, InOrder;
    match stage {
      case GeneralStage =>
        if engine(j, before).Some? {
          forall d: nat | SegmentEdge(engine(j, before).value, before, 0, d)
            ensures d in Cuts(AllPieces(engine(j, before).value, before), 0)
          {
            GeneralCuts(engine(j, before).value, before, 0, d);
          }
        }
      case Gpt2Stage =>
        SegmentsNotEmpty(Gpt2(t), cpts, before);
        AllTokensIn(Gpt2(t), cpts, before);
      case Llama3Stage =>
        SegmentsNotEmpty(Llama3(t, t.lower), cpts, before);
        AllTokensIn(Llama3(t, t.lower), cpts, before);
    }
  }

  lemma SegmentsNotEmpty(re: Regex.Re, s: seq<nat>, offsets: seq<nat>)
    requires Sum(offsets) == |s| > 0
    ensures SplitSegments(re, s, offsets, 0) != []
  {
    hide Regex.Split, SplitSegments;
    SegmentsRefine(re, s, offsets, 0);
    assert Sum(SplitSegments(re, s, offsets, 0)) == |s|;
  }

  // No expression of the list is passed over: the final cuts of a non-empty text
  // contain everything each of them found in the segments it was given.
  lemma EveryStageObeyed(t: Tables, cpts: seq<nat>, stages: seq<Stage>, engine: Engine, j: nat, k: nat)
    requires Sound(engine) && j < k <= |stages| && CutsAfter(t, cpts, stages, engine, k).Some? && cpts != []
    ensures CutsAfter(t, cpts, stages, engine, j).Some?
    ensures Obeyed(t, cpts, stages[j], CutsAfter(t, cpts, stages, engine, j).value, j, engine,
                   Cuts(CutsAfter(t, cpts, stages, engine, k).value, 0))
  {
    hide StageCuts, Sound, Cuts, SegmentEdge, Regex.Split;
    LaterRefines(t, cpts, stages, engine, j, k);
    LaterRefines(t, cpts, stages, engine, j + 1, k);
    var before := CutsAfter(t, cpts, stages, engine, j).value;
    StageObeyed(t, cpts, stages[j], before, j, engine);
    assert CutsAfter(t, cpts, stages, engine, j + 1) == StageCuts(t, cpts, stages[j], before, j, engine);
    var cuts, more := Cuts(CutsAfter(t, cpts, stages, engine, j + 1).value, 0), Cuts(CutsAfter(t, cpts, stages, engine, k).value, 0);
    assert cuts <= more;
    MoreCuts(t, cpts, stages[j], before, j, engine, cuts, more);
  }

  lemma MoreCuts(t: Tables, cpts: seq<nat>, stage: Stage, before: seq<nat>, j: nat, engine: Engine,
                 cuts: set<nat>, more: set<nat>)
    requires Sum(before) <= |cpts| && Obeyed(t, cpts, stage, before, j, engine, cuts) && cuts <= more
    ensures Obeyed(t, cpts, stage, before, j, engine, more)
  {
    hide SegmentEdge, Regex.Split, Cuts, Sum;
    if !stage.GeneralStage? {
      var re := if stage.Gpt2Stage? then Gpt2(t) else Llama3(t, t.lower);
      forall g: nat | g < |before| ensures TokensOfIn(re, cpts, before, g, more) {
        assert TokensOfIn(re, cpts, before, g, cuts);
      }
    }
  }

  // A single custom expression cuts a non-empty text as its expression does.
  lemma OneStage(t: Tables, cpts: seq<nat>, stage: Stage, engine: Engine)
    requires Sound(engine) && cpts != [] && !stage.GeneralStage?
    ensures CutsAfter(t, cpts, [stage], engine, 1)
         == Some(Regex.Split(if stage.Gpt2Stage? then Gpt2(t) else Llama3(t, t.lower), cpts, 0, 0, |cpts|))
  {
    hide Regex.Split, SplitSegments;
    OneSegment(Gpt2(t), cpts);
    OneSegment(Llama3(t, t.lower), cpts);
    assert CutsAfter(t, cpts, [stage], engine, 0) == Some([|cpts|]);
  }

  lemma OneSegment(re: Regex.Re, s: seq<nat>)
    ensures Sum([|s|]) == |s|
    ensures SplitSegments(re, s, [|s|], 0) == Regex.Split(re, s, 0, 0, |s|)
    ensures |s| > 0 ==> Regex.Split(re, s, 0, 0, |s|) != []
  {
    hide Regex.Split;
    var x: seq<nat> := [|s|];
    assert x[1..] == [];
    assert Regex.Split(re, s, 0, 0, |s|) + [] == Regex.Split(re, s, 0, 0, |s|);
    SplitSum(re, s, 0, 0, |s|);
  }

  // ---------------------------------------------------------------- words

  function Slices(cpts: seq<nat>, offsets: seq<nat>, start: nat): seq<seq<nat>>
    requires start + Sum(offsets) <= |cpts|
    decreases |offsets|
  {
    if offsets == [] then []
    else [cpts[start..start + offsets[0]]] + Slices(cpts, offsets[1..], start + offsets[0])
  }

  function Flat<T>(ss: seq<seq<T>>): seq<T> {
    if ss == [] then [] else ss[0] + Flat(ss[1..])
  }

  lemma {:induction false} SlicesFlat(cpts: seq<nat>, offsets: seq<nat>, start: nat)
    requires start + Sum(offsets) <= |cpts|
    ensures Flat(Slices(cpts, offsets, start)) == cpts[start..start + Sum(offsets)]
    ensures |Slices(cpts, offsets, start)| == |offsets|
    decreases |offsets|
  {
    if offsets != [] {
      SlicesFlat(cpts, offsets[1..], start + offsets[0]);
      var rest := Slices(cpts, offsets[1..], start + offsets[0]);
      assert Slices(cpts, offsets, start)[1..] == rest;
      assert cpts[start..start + offsets[0]] + cpts[start + offsets[0]..start + Sum(offsets)] == cpts[start..start + Sum(offsets)];
    }
  }

  // The bytes a list of mapped words stands for.
  function UnmapAll(words: seq<seq<byte>>): Option<seq<byte>> {
    if words == [] then Some([])
    else
      var w := Unmap(words[0]);
      var rest := UnmapAll(words[1..]);
      if w.Some? && rest.Some? then Some(w.value + rest.value) else None
  }

  // Encode the code points of each slice.
  function EncodeAll(slices: seq<seq<nat>>): Result<seq<seq<byte>>, CodecError> {
    if slices == [] then Ok([])
    else
      var first := Encode(slices[0]);
      if first.Err? then Err(first.error)
      else
        var rest := EncodeAll(slices[1..]);
        if rest.Err? then rest else Ok([first.value] + rest.value)
  }

  function MapAll(words: seq<seq<byte>>): (r: seq<seq<byte>>)
    ensures |r| == |words| && forall i :: 0 <= i < |words| ==> r[i] == MapBytes(words[i])
  {
    seq(|words|, i requires 0 <= i < |words| => MapBytes(words[i]))
  }

  lemma {:induction false} EncodeAllFlat(slices: seq<seq<nat>>)
    ensures EncodeAll(slices).Ok? <==> Encode(Flat(slices)).Ok?
    ensures EncodeAll(slices).Ok? ==> Flat(EncodeAll(slices).value) == Encode(Flat(slices)).value
    ensures EncodeAll(slices).Ok? ==>
              |EncodeAll(slices).value| == |slices|
              && (forall i :: 0 <= i < |slices| ==> Encode(slices[i]) == Ok(EncodeAll(slices).value[i]))
    ensures EncodeAll(slices).Err? ==> EncodeAll(slices).error == InvalidCodepoint
    decreases |slices|
  {
    hide Encode;
    if slices == [] {
      NoCodePoints();
    } else {
      EncodeAllFlat(slices[1..]);
      EncodeErrIs(slices[0]);
      OkConcat(slices[0], Flat(slices[1..]));
      if EncodeAll(slices).Ok? {
        var rest := EncodeAll(slices[1..]).value;
        EncodeConcat(slices[0], Flat(slices[1..]));
        assert EncodeAll(slices).value[1..] == rest;
      }
    }
  }

  lemma NoCodePoints()
    ensures Encode([]) == Ok([])
  {
  }

  lemma {:induction false} EncodeErrIs(cps: seq<nat>)
    ensures Encode(cps).Err? ==> Encode(cps).error == InvalidCodepoint
  {
    if cps != [] {
      EncodeErrIs(cps[..|cps| - 1]);
    }
  }

  lemma OkConcat(a: seq<nat>, b: seq<nat>)
    ensures Encode(a + b).Ok? <==> Encode(a).Ok? && Encode(b).Ok?
  {
    EncodeOk(a);
    EncodeOk(b);
    EncodeOk(a + b);
    assert forall i :: 0 <= i < |a| ==> (a + b)[i] == a[i];
    assert forall i :: 0 <= i < |b| ==> (a + b)[|a| + i] == b[i];
  }

  lemma {:induction false} UnmapAllMapAll(words: seq<seq<byte>>)
    ensures UnmapAll(MapAll(words)) == Some(Flat(words))
    decreases |words|
  {
    if words != [] {
      UnmapMap(words[0]);
      assert MapAll(words)[1..] == MapAll(words[1..]);
      UnmapAllMapAll(words[1..]);
    }
  }

  method MapWord(word: seq<byte>) returns (out: seq<byte>)
    ensures out == MapBytes(word)
  {
    out := [];
    var i := 0;
    assert word[..0] == [];
    while i < |word|
      invariant 0 <= i <= |word| && out == MapBytes(word[..i])
    {
      assert word[..i + 1][..i] == word[..i];
      out := out + Symbol(word[i]);
      i := i + 1;
    }
    assert word[..|word|] == word;
  }

  // Every word is decoded and encoded once more before its bytes are mapped.
  method ByteEncodingProcess(words: seq<seq<byte>>, ghost slices: seq<seq<nat>>) returns (out: seq<seq<byte>>)
    requires |slices| == |words| && forall i :: 0 <= i < |words| ==> Encode(slices[i]) == Ok(words[i])
    ensures out == MapAll(words)
  {
    hide Encode, Decode, MapBytes;
    out := [];
    var i := 0;
    while i < |words|
      invariant 0 <= i <= |words| && |out| == i
      invariant forall k :: 0 <= k < i ==> out[k] == MapBytes(words[k])
    {
      RoundTrip(slices[i]);
      var cps := DecodeText(words[i]);
      var again := EncodeText(cps.value);
      var mapped := MapWord(again.value);
      out := out + [mapped];
      i := i + 1;
    }
  }

  method BuildWords(cpts: seq<nat>, offsets: seq<nat>) returns (r: Result<seq<seq<byte>>, CodecError>)
    requires Sum(offsets) <= |cpts|
    ensures r == EncodeAll(Slices(cpts, offsets, 0))
  {
    hide Encode;
    var words: seq<seq<byte>> := [];
    var start: nat, k: nat := 0, 0;
    assert offsets[0..] == offsets;
    ghost var target := EncodeAll(Slices(cpts, offsets, 0));
    if target.Ok? {
      assert [] + target.value == target.value;
    }
    while k < |offsets|
      invariant 0 <= k <= |offsets| && start + Sum(offsets[k..]) <= |cpts|
      invariant target == (var rest := EncodeAll(Slices(cpts, offsets[k..], start));
                           if rest.Err? then rest else Ok(words + rest.value))
    {
      assert offsets[k..][1..] == offsets[k + 1..];
      ghost var slices := Slices(cpts, offsets[k..], start);
      assert slices[1..] == Slices(cpts, offsets[k + 1..], start + offsets[k]);
      var word := EncodeText(cpts[start..start + offsets[k]]);
      if word.Err? {
        return Err(word.error);
      }
      ghost var rest := EncodeAll(slices[1..]);
      if rest.Ok? {
        assert words + ([word.value] + rest.value) == (words + [word.value]) + rest.value;
      }
      words := words + [word.value];
      start := start + offsets[k];
      k := k + 1;
    }
    assert offsets[k..] == [];
    assert words + [] == words;
    return Ok(words);
  }

  // ---------------------------------------------------------------- the whole function

  // The words of a text, mapped to the byte alphabet: reading them back gives
  // the shortest-form encoding of the text's code points. Failures are an
  // undecodable text, a code point that cannot be encoded, or an expression the
  // engine rejects.
  method RegexSplit(t: Tables, text: seq<byte>, stages: seq<Stage>, engine: Engine)
    returns (r: Result<seq<seq<byte>>, SplitError>, ghost offsets: seq<nat>)
    requires Classified(t) && Sound(engine)
    ensures r.Ok? ==> Decode(text, 0).Ok? && Encode(Decode(text, 0).value).Ok?
                      && UnmapAll(r.value) == Some(Encode(Decode(text, 0).value).value)
    ensures r.Ok? ==> CutsAfter(t, Decode(text, 0).value, stages, engine, |stages|) == Some(offsets)
                      && CutAt(r.value, Decode(text, 0).value, offsets)
    ensures r.Err? && r.error.Codec? ==> Decode(text, 0).Err? || Encode(Decode(text, 0).value).Err?
    ensures r == Err(RegexFailed) <==>
              Decode(text, 0).Ok? && CutsAfter(t, Decode(text, 0).value, stages, engine, |stages|).None?
  {
    hide Encode, Decode, Classified, Sound, UnmapAll, EncodeAll, MapAll, Slices, Flat, CutsAfter;
    offsets := [];
    var cpts := DecodeText(text);
    if cpts.Err? {
      return Err(Codec(cpts.error)), [];
    }
    DecodedAreCodePoints(text, 0);
    var cuts := SplitStages(t, cpts.value, stages, engine);
    if cuts.None? {
      return Err(RegexFailed), [];
    }
    offsets := cuts.value;
    ghost var slices := Slices(cpts.value, offsets, 0);
    SlicesFlat(cpts.value, offsets, 0);
    assert cpts.value[0..0 + Sum(offsets)] == cpts.value;
    EncodeAllFlat(slices);
    var words := BuildWords(cpts.value, cuts.value);
    if words.Err? {
      return Err(Codec(words.error)), offsets;
    }
    var out := ByteEncodingProcess(words.value, slices);
    UnmapAllMapAll(words.value);
    return Ok(out), offsets;
  }

  // The words are the stretches between the cuts, encoded and mapped.
  ghost predicate CutAt(words: seq<seq<byte>>, cpts: seq<nat>, offsets: seq<nat>) {
    Sum(offsets) == |cpts|
    && var encoded := EncodeAll(Slices(cpts, offsets, 0));
       encoded.Ok? && words == MapAll(encoded.value)
  }

  lemma {:induction false} DecodedAreCodePoints(s: seq<byte>, i: nat)
    requires i <= |s| && Decode(s, i).Ok?
    ensures CodePoints(Decode(s, i).value)
    decreases |s| - i
  {
    hide DecodeOne;
    if i < |s| {
      DecodeAdvances(s, i);
      DecodedAreCodePoints(s, DecodeOne(s, i).value.1);
    }
  }

  // Nothing of the text is lost, byte for byte, if and only if it is in
  // shortest form.
  lemma SplitLosslessIffShortest(text: seq<byte>, words: seq<seq<byte>>)
    requires Decode(text, 0).Ok? && Encode(Decode(text, 0).value).Ok?
    requires UnmapAll(words) == Some(Encode(Decode(text, 0).value).value)
    ensures UnmapAll(words) == Some(text) <==> Shortest(text, 0)
  {
    hide Encode, Decode;
    TextReencodesIffShortest(text, 0);
    assert text[0..] == text;
  }
}
