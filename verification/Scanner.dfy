/**
 The two hand-written pre-tokenizers, and the regular expressions they stand
 for. Both are proved to cut every segment where backtracking matching of the
 expression does.
 */
module Scanner {
  import opened Wrappers
  import opened Regex

  // The flag word of a code point, as far as the scanners look at it.
  datatype Flags = Flags(isNumber: bool, isLetter: bool, isWhitespace: bool, rest: nat) {
    predicate AsUint() {
      isNumber || isLetter || isWhitespace || rest != 0
    }
  }

  const NO_FLAGS := Flags(false, false, false, 0)

  // The flag table and the lower-case table.
  datatype Tables = Tables(flags: nat -> Flags, lower: nat -> nat)

  const OUT_OF_RANGE: nat := 0xFFFF_FFFF

  const APOS: nat := 39
  const SPACE: nat := 32
  const CR: nat := 13
  const LF: nat := 10

  // Letters, numbers and white space are disjoint; no code point has an empty
  // flag word (unassigned ones carry the UNDEFINED bit).
  ghost predicate Classified(t: Tables) {
    && (forall c :: t.flags(c).AsUint())
    && (forall c :: !(t.flags(c).isLetter && t.flags(c).isNumber))
    && (forall c :: t.flags(c).isWhitespace ==> !t.flags(c).isLetter && !t.flags(c).isNumber)
    && t.flags(SPACE).isWhitespace && t.flags(CR).isWhitespace && t.flags(LF).isWhitespace
    && !t.flags(APOS).isWhitespace && !t.flags(APOS).isLetter && !t.flags(APOS).isNumber
  }

  // The classes of the two expressions.
  function Letter(t: Tables): nat -> bool { (c: nat) => t.flags(c).isLetter }
  function Number(t: Tables): nat -> bool { (c: nat) => t.flags(c).isNumber }
  function White(t: Tables): nat -> bool { (c: nat) => t.flags(c).isWhitespace }
  function NonWhite(t: Tables): nat -> bool { (c: nat) => !t.flags(c).isWhitespace }
  // [^\s\p{L}\p{N}]
  function Other(t: Tables): nat -> bool {
    (c: nat) => !t.flags(c).isWhitespace && !t.flags(c).isLetter && !t.flags(c).isNumber
  }
  // [^\r\n\p{L}\p{N}]
  function Lead(t: Tables): nat -> bool {
    (c: nat) => c != CR && c != LF && !t.flags(c).isLetter && !t.flags(c).isNumber
  }
  function Is(c: nat): nat -> bool { (x: nat) => x == c }
  function Newline(): nat -> bool { (x: nat) => x == CR || x == LF }

  function Same(): nat -> nat { (x: nat) => x }

  // A letter of a contraction, compared through `fold`.
  function Folded(fold: nat -> nat, c: nat): Re {
    Cls((x: nat) => fold(x) == c)
  }

  function Short(fold: nat -> nat, a: nat): Re {
    Cat(Cls(Is(APOS)), Folded(fold, a))
  }

  function Long(fold: nat -> nat, a: nat, b: nat): Re {
    Cat(Cls(Is(APOS)), Cat(Folded(fold, a), Folded(fold, b)))
  }

  // 's|'t|'re|'ve|'m|'ll|'d
  function Contraction(fold: nat -> nat): Re {
    Alt(Short(fold, 's' as nat), Alt(Short(fold, 't' as nat), Alt(Long(fold, 'r' as nat, 'e' as nat),
    Alt(Long(fold, 'v' as nat, 'e' as nat), Alt(Short(fold, 'm' as nat),
    Alt(Long(fold, 'l' as nat, 'l' as nat), Short(fold, 'd' as nat)))))))
  }

  //  ?[p]+
  function SpaceThen(p: nat -> bool): Re {
    Cat(Opt(Cls(Is(SPACE))), Plus(p))
  }

  // \s+(?!\S)
  function WhiteNotLast(t: Tables): Re {
    Cat(Plus(White(t)), NotAhead(NonWhite(t)))
  }

  // The expression the first scanner is dispatched on, and the one its comment
  // quotes, which ends in one more alternative.
  function Gpt2Dispatched(t: Tables): Re {
    Alt(Contraction(Same()), Alt(SpaceThen(Letter(t)), Alt(SpaceThen(Number(t)),
    Alt(SpaceThen(Other(t)), WhiteNotLast(t)))))
  }

  function Gpt2(t: Tables): Re {
    Alt(Contraction(Same()), Alt(SpaceThen(Letter(t)), Alt(SpaceThen(Number(t)),
    Alt(SpaceThen(Other(t)), Alt(WhiteNotLast(t), Plus(White(t)))))))
  }

  //  ?[^\s\p{L}\p{N}]+[\r\n]*
  function OtherThenNewlines(t: Tables): Re {
    Cat(Opt(Cls(Is(SPACE))), Cat(Plus(Other(t)), Star(Newline())))
  }

  // \s*[\r\n]+
  function WhiteThenNewlines(t: Tables): Re {
    Cat(Star(White(t)), Plus(Newline()))
  }

  function Llama3(t: Tables, fold: nat -> nat): Re {
    Alt(Contraction(fold), Alt(Cat(Opt(Cls(Lead(t))), Plus(Letter(t))), Alt(Rep(Number(t), 3),
    Alt(OtherThenNewlines(t), Alt(WhiteThenNewlines(t), Alt(WhiteNotLast(t), Plus(White(t))))))))
  }

  // ---------------------------------------------------------------- matches, alternative by alternative

  // Length of the contraction at i, 0 if there is none.
  function ContractionLen(fold: nat -> nat, s: seq<nat>, i: nat, hi: nat): nat
    requires hi <= |s|
  {
    if In(Is(APOS), s, i, hi) && i + 1 < hi then
      var a := fold(s[i + 1]);
      if a == 's' as nat || a == 't' as nat || a == 'm' as nat || a == 'd' as nat then 2
      else if i + 2 < hi then
        var b := fold(s[i + 2]);
        if (a == 'r' as nat && b == 'e' as nat) || (a == 'v' as nat && b == 'e' as nat)
           || (a == 'l' as nat && b == 'l' as nat) then 3 else 0
      else 0
    else 0
  }

  lemma FirstShort(fold: nat -> nat, a: nat, s: seq<nat>, i: nat, hi: nat)
    requires hi <= |s|
    ensures First(Short(fold, a), s, i, hi) ==
            if In(Is(APOS), s, i, hi) && i + 1 < hi && fold(s[i + 1]) == a then Some(i + 2) else None
  {
    EndsCatOne(Cls(Is(APOS)), Folded(fold, a), s, i, hi);
  }

  lemma FirstLong(fold: nat -> nat, a: nat, b: nat, s: seq<nat>, i: nat, hi: nat)
    requires hi <= |s|
    ensures First(Long(fold, a, b), s, i, hi) ==
            if In(Is(APOS), s, i, hi) && i + 2 < hi && fold(s[i + 1]) == a && fold(s[i + 2]) == b then Some(i + 3) else None
  {
    EndsCatOne(Cls(Is(APOS)), Cat(Folded(fold, a), Folded(fold, b)), s, i, hi);
    EndsCatOne(Folded(fold, a), Folded(fold, b), s, i + 1, hi);
  }

  lemma FirstContraction(fold: nat -> nat, s: seq<nat>, i: nat, hi: nat)
    requires hi <= |s|
    ensures First(Contraction(fold), s, i, hi) ==
            if ContractionLen(fold, s, i, hi) > 0 then Some(i + ContractionLen(fold, s, i, hi)) else None
  {
    hide Ends, EndsAll, First, Short, Long;
    FirstShort(fold, 's' as nat, s, i, hi);
    FirstShort(fold, 't' as nat, s, i, hi);
    FirstLong(fold, 'r' as nat, 'e' as nat, s, i, hi);
    FirstLong(fold, 'v' as nat, 'e' as nat, s, i, hi);
    FirstShort(fold, 'm' as nat, s, i, hi);
    FirstLong(fold, 'l' as nat, 'l' as nat, s, i, hi);
    FirstShort(fold, 'd' as nat, s, i, hi);
    var r6 := Alt(Long(fold, 'l' as nat, 'l' as nat), Short(fold, 'd' as nat));
    FirstAlt(Long(fold, 'l' as nat, 'l' as nat), Short(fold, 'd' as nat), s, i, hi);
    var r5 := Alt(Short(fold, 'm' as nat), r6);
    FirstAlt(Short(fold, 'm' as nat), r6, s, i, hi);
    var r4 := Alt(Long(fold, 'v' as nat, 'e' as nat), r5);
    FirstAlt(Long(fold, 'v' as nat, 'e' as nat), r5, s, i, hi);
    var r3 := Alt(Long(fold, 'r' as nat, 'e' as nat), r4);
    FirstAlt(Long(fold, 'r' as nat, 'e' as nat), r4, s, i, hi);
    var r2 := Alt(Short(fold, 't' as nat), r3);
    FirstAlt(Short(fold, 't' as nat), r3, s, i, hi);
    FirstAlt(Short(fold, 's' as nat), r2, s, i, hi);
  }

  // Where the run of a ` ?[p]+` alternative starts.
  function AfterSpace(s: seq<nat>, i: nat, hi: nat): nat
    requires hi <= |s|
  {
    if In(Is(SPACE), s, i, hi) then i + 1 else i
  }

  lemma FirstSpaceThen(p: nat -> bool, s: seq<nat>, i: nat, hi: nat)
    requires hi <= |s| && !p(SPACE)
    ensures First(SpaceThen(p), s, i, hi) ==
            var j := AfterSpace(s, i, hi); if In(p, s, j, hi) then Some(RunEnd(p, s, j, hi)) else None
  {
    hide Ends, EndsAll, First;
    FirstOptCat(Is(SPACE), Plus(p), s, i, hi);
    FirstPlus(p, s, i, hi);
    FirstPlus(p, s, i + 1, hi);
  }

  // \s+(?!\S): the whole run at the end of the segment, otherwise all of it
  // but the last character.
  function WhiteNotLastEnd(t: Tables, s: seq<nat>, i: nat, hi: nat): Option<nat>
    requires hi <= |s|
  {
    var r := RunEnd(White(t), s, i, hi);
    if r == i then None
    else if r >= hi then Some(r)
    else if r - i > 1 then Some(r - 1)
    else None
  }

  lemma FirstOfCat(a: Re, b: Re, s: seq<nat>, i: nat, hi: nat)
    requires hi <= |s|
    ensures Ends(Cat(a, b), s, i, hi) == EndsAll(b, s, Ends(a, s, i, hi), hi)
  {}

  lemma AheadEnds(p: nat -> bool, s: seq<nat>, k: nat, hi: nat)
    requires hi <= |s|
    ensures Ends(NotAhead(p), s, k, hi) == if In(p, s, k, hi) then [] else [k]
  {}

  lemma RunFrom(p: nat -> bool, s: seq<nat>, i: nat, hi: nat)
    requires hi <= |s|
    ensures RunEnd(p, s, i, hi) == if In(p, s, i, hi) then RunEnd(p, s, i + 1, hi) else i
  {}

  lemma FirstWhiteNotLast(t: Tables, s: seq<nat>, i: nat, hi: nat)
    requires hi <= |s|
    ensures First(WhiteNotLast(t), s, i, hi) == WhiteNotLastEnd(t, s, i, hi)
  {
    hide Ends, EndsAll, StarEnds, RunEnd;
    var w, na := White(t), NotAhead(NonWhite(t));
    EndsPlus(w, s, i, hi);
    FirstOfCat(Plus(w), na, s, i, hi);
    RunFrom(w, s, i, hi);
    if In(w, s, i, hi) {
      StarIsRun(w, s, i + 1, hi);
      var r, es := RunEnd(w, s, i, hi), StarEnds(w, s, i + 1, hi);
      AheadEnds(NonWhite(t), s, r, hi);
      AheadEnds(NonWhite(t), s, r - 1, hi);
      if r < hi && r - i > 1 {
        assert In(w, s, r - 1, hi);
      }
      EndsAllFirst(na, s, es, if r >= hi then 0 else 1, hi);
    } else {
      EndsAllFirst(na, s, [], 0, hi);
    }
  }

  lemma FirstOtherThenNewlines(t: Tables, s: seq<nat>, i: nat, hi: nat)
    requires hi <= |s| && Classified(t)
    ensures First(OtherThenNewlines(t), s, i, hi) ==
            var j := AfterSpace(s, i, hi);
            if In(Other(t), s, j, hi) then Some(RunEnd(Newline(), s, RunEnd(Other(t), s, j, hi), hi)) else None
  {
    var b := Cat(Plus(Other(t)), Star(Newline()));
    FirstOptCat(Is(SPACE), b, s, i, hi);
    FirstRunThenNewlines(t, s, i, hi);
    FirstRunThenNewlines(t, s, i + 1, hi);
  }

  lemma FirstRunThenNewlines(t: Tables, s: seq<nat>, i: nat, hi: nat)
    requires hi <= |s|
    ensures First(Cat(Plus(Other(t)), Star(Newline())), s, i, hi) ==
            if In(Other(t), s, i, hi) then Some(RunEnd(Newline(), s, RunEnd(Other(t), s, i, hi), hi)) else None
  {
    var o, n := Other(t), Newline();
    EndsPlus(o, s, i, hi);
    if In(o, s, i, hi) {
      var es := StarEnds(o, s, i + 1, hi);
      StarIsRun(o, s, i + 1, hi);
      StarIsRun(n, s, es[0], hi);
      EndsAllFirst(Star(n), s, es, 0, hi);
    } else {
      assert EndsAll(Star(n), s, [], hi) == [];
    }
  }

  // One past the last line break of s[i..r]; i if there is none.
  function LastNewline(s: seq<nat>, i: nat, r: nat): (e: nat)
    requires i <= r <= |s|
    ensures i <= e <= r
    ensures e > i ==> Newline()(s[e - 1])
    ensures forall k :: e <= k < r ==> !Newline()(s[k])
    decreases r - i
  {
    if r == i then i else if Newline()(s[r - 1]) then r else LastNewline(s, i, r - 1)
  }

  lemma FirstWhiteThenNewlines(t: Tables, s: seq<nat>, i: nat, hi: nat)
    requires i <= hi <= |s| && Classified(t)
    ensures First(WhiteThenNewlines(t), s, i, hi) ==
            var e := LastNewline(s, i, RunEnd(White(t), s, i, hi)); if e > i then Some(e) else None
  {
    hide Ends, EndsAll, Plus;
    var w, n := White(t), Newline();
    var r := RunEnd(w, s, i, hi);
    var e := LastNewline(s, i, r);
    FirstCatStar(w, Plus(n), s, i, hi);
    forall j | (if e > i then e else i) <= j <= r ensures First(Plus(n), s, j, hi).None? {
      assert !In(n, s, j, hi);
      EndsPlus(n, s, j, hi);
    }
    if e > i {
      FirstPlus(n, s, e - 1, hi);
      RunIs(n, s, e - 1, e, hi);
      assert LongestLead(w, Plus(n), s, i, hi, e - 1);
    }
  }

  lemma FirstRep(t: Tables, s: seq<nat>, i: nat, hi: nat)
    requires hi <= |s|
    ensures First(Rep(Number(t), 3), s, i, hi) ==
            var r := RunEnd(Number(t), s, i, hi);
            if r == i then None else if r - i < 3 then Some(r) else Some(i + 3)
  {
    if In(Number(t), s, i, hi) {
      RepIsRun(Number(t), 2, s, i + 1, hi);
    }
  }

  lemma FirstLeadLetters(t: Tables, s: seq<nat>, i: nat, hi: nat)
    requires hi <= |s|
    ensures First(Cat(Opt(Cls(Lead(t))), Plus(Letter(t))), s, i, hi) ==
            if In(Lead(t), s, i, hi) && In(Letter(t), s, i + 1, hi) then Some(RunEnd(Letter(t), s, i + 1, hi))
            else if In(Letter(t), s, i, hi) then Some(RunEnd(Letter(t), s, i + 1, hi)) else None
  {
    hide Ends, EndsAll, First;
    FirstOptCat(Lead(t), Plus(Letter(t)), s, i, hi);
    FirstPlus(Letter(t), s, i, hi);
    FirstPlus(Letter(t), s, i + 1, hi);
  }

  // ---------------------------------------------------------------- whole expressions

  // The end of the match of the first expression at i.
  function Gpt2End(t: Tables, s: seq<nat>, i: nat, hi: nat): nat
    requires i < hi <= |s|
  {
    var c := ContractionLen(Same(), s, i, hi);
    var j := AfterSpace(s, i, hi);
    var r := RunEnd(White(t), s, i, hi);
    if c > 0 then i + c
    else if In(Letter(t), s, j, hi) then RunEnd(Letter(t), s, j, hi)
    else if In(Number(t), s, j, hi) then RunEnd(Number(t), s, j, hi)
    else if In(Other(t), s, j, hi) then RunEnd(Other(t), s, j, hi)
    else if r - i > 1 && r < hi then r - 1
    else if r > i then r
    else i + 1
  }

  lemma FirstGpt2(t: Tables, s: seq<nat>, i: nat, hi: nat)
    requires i < hi <= |s| && Classified(t)
    ensures First(Gpt2(t), s, i, hi) == Some(Gpt2End(t, s, i, hi))
    ensures i < Gpt2End(t, s, i, hi) <= hi
  {
    hide Ends, EndsAll, First, Contraction, SpaceThen, WhiteNotLast, Plus, ContractionLen;
    ContractionFits(Same(), s, i, hi);
    var a5 := Alt(WhiteNotLast(t), Plus(White(t)));
    var a4 := Alt(SpaceThen(Other(t)), a5);
    var a3 := Alt(SpaceThen(Number(t)), a4);
    var a2 := Alt(SpaceThen(Letter(t)), a3);
    FirstContraction(Same(), s, i, hi);
    FirstSpaceThen(Letter(t), s, i, hi);
    FirstSpaceThen(Number(t), s, i, hi);
    FirstSpaceThen(Other(t), s, i, hi);
    FirstWhiteNotLast(t, s, i, hi);
    FirstPlus(White(t), s, i, hi);
    FirstAlt(WhiteNotLast(t), Plus(White(t)), s, i, hi);
    FirstAlt(SpaceThen(Other(t)), a5, s, i, hi);
    FirstAlt(SpaceThen(Number(t)), a4, s, i, hi);
    FirstAlt(SpaceThen(Letter(t)), a3, s, i, hi);
    FirstAlt(Contraction(Same()), a2, s, i, hi);
  }

  lemma ContractionFits(fold: nat -> nat, s: seq<nat>, i: nat, hi: nat)
    requires i < hi <= |s|
    ensures i + ContractionLen(fold, s, i, hi) <= hi
  {
  }

  // The end of the match of the second expression at i.
  function Llama3End(t: Tables, fold: nat -> nat, s: seq<nat>, i: nat, hi: nat): nat
    requires i < hi <= |s|
  {
    var c := ContractionLen(fold, s, i, hi);
    var j := AfterSpace(s, i, hi);
    var n := RunEnd(Number(t), s, i, hi);
    var r := RunEnd(White(t), s, i, hi);
    if c > 0 then i + c
    else if In(Letter(t), s, i, hi) || (In(Lead(t), s, i, hi) && In(Letter(t), s, i + 1, hi))
    then RunEnd(Letter(t), s, i + 1, hi)
    else if n > i then (if n - i < 3 then n else i + 3)
    else if In(Other(t), s, j, hi) then RunEnd(Newline(), s, RunEnd(Other(t), s, j, hi), hi)
    else if LastNewline(s, i, r) > i then LastNewline(s, i, r)
    else if r - i > 1 && r < hi then r - 1
    else if r > i then r
    else i + 1
  }

  lemma FirstLlama3(t: Tables, fold: nat -> nat, s: seq<nat>, i: nat, hi: nat)
    requires i < hi <= |s| && Classified(t)
    ensures First(Llama3(t, fold), s, i, hi) == Some(Llama3End(t, fold, s, i, hi))
    ensures i < Llama3End(t, fold, s, i, hi) <= hi
  {
    hide Ends, EndsAll, First, Contraction, WhiteNotLast, Plus, ContractionLen, OtherThenNewlines, WhiteThenNewlines;
    ContractionFits(fold, s, i, hi);
    var lead := Cat(Opt(Cls(Lead(t))), Plus(Letter(t)));
    var a6 := Alt(WhiteNotLast(t), Plus(White(t)));
    var a5 := Alt(WhiteThenNewlines(t), a6);
    var a4 := Alt(OtherThenNewlines(t), a5);
    var a3 := Alt(Rep(Number(t), 3), a4);
    var a2 := Alt(lead, a3);
    FirstContraction(fold, s, i, hi);
    FirstLeadLetters(t, s, i, hi);
    FirstRep(t, s, i, hi);
    FirstOtherThenNewlines(t, s, i, hi);
    FirstWhiteThenNewlines(t, s, i, hi);
    FirstWhiteNotLast(t, s, i, hi);
    FirstPlus(White(t), s, i, hi);
    FirstAlt(WhiteNotLast(t), Plus(White(t)), s, i, hi);
    FirstAlt(WhiteThenNewlines(t), a6, s, i, hi);
    FirstAlt(OtherThenNewlines(t), a5, s, i, hi);
    FirstAlt(Rep(Number(t), 3), a4, s, i, hi);
    FirstAlt(lead, a3, s, i, hi);
    FirstAlt(Contraction(fold), a2, s, i, hi);
  }

  // ---------------------------------------------------------------- scanning loops

  function FlagsAt(t: Tables, s: seq<nat>, pos: nat, hi: nat): Flags
    requires hi <= |s|
  {
    if pos < hi then t.flags(s[pos]) else NO_FLAGS
  }

  function CptAt(s: seq<nat>, pos: nat, hi: nat): nat
    requires hi <= |s|
  {
    if pos < hi then s[pos] else OUT_OF_RANGE
  }

  // Code points come from four-byte sequences at most.
  ghost predicate CodePoints(s: seq<nat>) {
    forall i :: 0 <= i < |s| ==> s[i] < OUT_OF_RANGE
  }

  // Advance over a run.
  method SkipRun(p: nat -> bool, s: seq<nat>, pos: nat, hi: nat) returns (r: nat)
    requires hi <= |s|
    ensures r == RunEnd(p, s, pos, hi)
  {
    r := pos;
    while r < hi && p(s[r])
      invariant pos <= r && (pos <= hi ==> r <= hi)
      invariant forall k :: pos <= k < r ==> In(p, s, k, hi)
      decreases hi - r
    {
      r := r + 1;
    }
    RunIs(p, s, pos, r, hi);
  }

  // The contraction test both scanners start with.
  method ContractionAt(fold: nat -> nat, s: seq<nat>, pos: nat, hi: nat) returns (len: nat)
    requires pos < hi <= |s|
    ensures len == ContractionLen(fold, s, pos, hi)
  {
    if s[pos] == APOS && pos + 1 < hi {
      var next := fold(s[pos + 1]);
      if next == 's' as nat || next == 't' as nat || next == 'm' as nat || next == 'd' as nat {
        return 2;
      }
      if pos + 2 < hi {
        var nextNext := fold(s[pos + 2]);
        if (next == 'r' as nat && nextNext == 'e' as nat) || (next == 'v' as nat && nextNext == 'e' as nat)
           || (next == 'l' as nat && nextNext == 'l' as nat) {
          return 3;
        }
      }
    }
    return 0;
  }

  // One round of the first scanner's loop.
  method NextGpt2(t: Tables, s: seq<nat>, pos: nat, hi: nat) returns (e: nat)
    requires pos < hi <= |s| && Classified(t) && CodePoints(s)
    ensures e == Gpt2End(t, s, pos, hi)
  {
    hide ContractionLen;
    var cpt, flags := s[pos], FlagsAt(t, s, pos, hi);
    var len := ContractionAt(Same(), s, pos, hi);
    if len > 0 {
      return pos + len;
    }
    var flags2 := if cpt == SPACE then FlagsAt(t, s, pos + 1, hi) else flags;
    var from := if cpt == SPACE then pos + 1 else pos;
    if flags2.isLetter {
      e := SkipRun(Letter(t), s, from, hi);
      return;
    }
    if flags2.isNumber {
      e := SkipRun(Number(t), s, from, hi);
      return;
    }
    if !(flags2.isWhitespace || flags2.isLetter || flags2.isNumber) && flags2.AsUint() {
      e := SkipRun(Other(t), s, from, hi);
      return;
    }
    var white := SkipRun(White(t), s, pos, hi);
    if white - pos > 1 && CptAt(s, white, hi) != OUT_OF_RANGE {
      return white - 1;
    }
    if white - pos > 0 {
      return white;
    }
    return pos + 1;
  }

  method ScanGpt2Segment(t: Tables, s: seq<nat>, ini: nat, hi: nat) returns (out: seq<nat>)
    requires ini <= hi <= |s| && Classified(t) && CodePoints(s)
    ensures out == Split(Gpt2(t), s, ini, ini, hi)
  {
    hide First, Gpt2, Gpt2End;
    out := [];
    var pos := ini;
    while pos < hi
      invariant ini <= pos <= hi
      invariant out + Split(Gpt2(t), s, pos, pos, hi) == Split(Gpt2(t), s, ini, ini, hi)
      decreases hi - pos
    {
      var e := NextGpt2(t, s, pos, hi);
      FirstGpt2(t, s, pos, hi);
      SplitStep(Gpt2(t), s, pos, e, hi);
      ghost var rest := Split(Gpt2(t), s, e, e, hi);
      assert (out + [e - pos]) + rest == out + ([e - pos] + rest);
      out := out + [e - pos];
      pos := e;
    }
    assert out + [] == out;
  }

  lemma SplitStep(re: Re, s: seq<nat>, pos: nat, e: nat, hi: nat)
    requires pos < e <= hi <= |s| && First(re, s, pos, hi) == Some(e)
    ensures Split(re, s, pos, pos, hi) == [e - pos] + Split(re, s, e, e, hi)
  {
    hide First;
    assert [] + [e - pos] == [e - pos];
  }

  // Cut each segment in turn.
  function SplitSegments(re: Re, s: seq<nat>, offsets: seq<nat>, start: nat): seq<nat>
    requires start + Sum(offsets) <= |s|
    decreases |offsets|
  {
    if offsets == [] then []
    else Split(re, s, start, start, start + offsets[0]) + SplitSegments(re, s, offsets[1..], start + offsets[0])
  }

  function Sum(offsets: seq<nat>): nat {
    if offsets == [] then 0 else offsets[0] + Sum(offsets[1..])
  }

  method ScanGpt2(t: Tables, s: seq<nat>, offsets: seq<nat>) returns (out: seq<nat>)
    requires Sum(offsets) <= |s| && Classified(t) && CodePoints(s)
    ensures out == SplitSegments(Gpt2(t), s, offsets, 0)
  {
    hide Split, Gpt2;
    out := [];
    var start: nat, k: nat := 0, 0;
    assert offsets[0..] == offsets;
    while k < |offsets|
      invariant 0 <= k <= |offsets| && start + Sum(offsets[k..]) <= |s|
      invariant out + SplitSegments(Gpt2(t), s, offsets[k..], start) == SplitSegments(Gpt2(t), s, offsets, 0)
    {
      assert offsets[k..][1..] == offsets[k + 1..];
      var tokens := ScanGpt2Segment(t, s, start, start + offsets[k]);
      ghost var rest := SplitSegments(Gpt2(t), s, offsets[k + 1..], start + offsets[k]);
      assert (out + tokens) + rest == out + (tokens + rest);
      out := out + tokens;
      start := start + offsets[k];
      k := k + 1;
    }
    assert out + [] == out;
  }

  // One round of the second scanner's loop, except for runs of digits.
  method NextLlama3(t: Tables, s: seq<nat>, pos: nat, hi: nat) returns (e: nat)
    requires pos < hi <= |s| && Classified(t) && CodePoints(s)
    requires !t.flags(s[pos]).isNumber
    ensures e == Llama3End(t, t.lower, s, pos, hi)
  {
    hide ContractionLen, LastNewline;
    var cpt, flags := s[pos], FlagsAt(t, s, pos, hi);
    assert !In(Number(t), s, pos, hi);
    var len := ContractionAt(t.lower, s, pos, hi);
    if len > 0 {
      return pos + len;
    }
    if !(cpt == CR || cpt == LF || flags.isNumber) {
      if flags.isLetter || FlagsAt(t, s, pos + 1, hi).isLetter {
        e := SkipRun(Letter(t), s, pos + 1, hi);
        return;
      }
    }
    var flags2 := if cpt == SPACE then FlagsAt(t, s, pos + 1, hi) else flags;
    if !(flags2.isWhitespace || flags2.isLetter || flags2.isNumber) && flags.AsUint() {
      e := OtherBranch(t, s, pos, hi);
      return;
    }
    e := WhiteBranch(t, s, pos, hi);
  }

  // Entered at the last character of a segment too, when that is a space.
  method OtherBranch(t: Tables, s: seq<nat>, pos: nat, hi: nat) returns (e: nat)
    requires pos < hi <= |s| && Classified(t)
    requires In(Other(t), s, AfterSpace(s, pos, hi), hi) || (s[pos] == SPACE && pos + 1 == hi)
    ensures e == if In(Other(t), s, AfterSpace(s, pos, hi), hi)
                 then RunEnd(Newline(), s, RunEnd(Other(t), s, AfterSpace(s, pos, hi), hi), hi) else hi
  {
    var from := if s[pos] == SPACE then pos + 1 else pos;
    e := SkipRun(Other(t), s, from, hi);
    e := SkipRun(Newline(), s, e, hi);
  }

  method WhiteBranch(t: Tables, s: seq<nat>, pos: nat, hi: nat) returns (e: nat)
    requires pos < hi <= |s| && CodePoints(s)
    ensures var r := RunEnd(White(t), s, pos, hi);
            e == if LastNewline(s, pos, r) > pos then LastNewline(s, pos, r)
                 else if r - pos > 1 && r < hi then r - 1 else if r > pos then r else pos + 1
  {
    var white, lastNewline := pos, 0;
    while FlagsAt(t, s, white, hi).isWhitespace
      invariant pos <= white <= hi
      invariant forall k :: pos <= k < white ==> In(White(t), s, k, hi)
      invariant LastNewline(s, pos, white) == if lastNewline > 0 then lastNewline else pos
      invariant lastNewline == 0 || lastNewline > pos
      decreases hi - white
    {
      if s[white] == CR || s[white] == LF {
        lastNewline := white + 1;
      }
      white := white + 1;
    }
    RunIs(White(t), s, pos, white, hi);
    if lastNewline > 0 {
      return lastNewline;
    }
    if white - pos > 1 && CptAt(s, white, hi) != OUT_OF_RANGE {
      return white - 1;
    }
    if white - pos > 0 {
      return white;
    }
    return pos + 1;
  }

  // A run of digits is emitted three at a time within one round.
  method DigitRun(t: Tables, s: seq<nat>, pos: nat, hi: nat) returns (out: seq<nat>, e: nat)
    requires pos < hi <= |s| && Classified(t) && t.flags(s[pos]).isNumber
    ensures pos < e <= hi
    ensures Split(Llama3(t, t.lower), s, pos, pos, hi) == out + Split(Llama3(t, t.lower), s, e, e, hi)
  {
    hide First, Llama3, Llama3End, Split;
    out := [];
    var ini := pos;
    e := pos;
    while FlagsAt(t, s, e, hi).isNumber
      invariant pos <= ini <= e <= hi && e - ini < 3
      invariant forall k :: ini <= k < e ==> t.flags(s[k]).isNumber
      invariant out + Split(Llama3(t, t.lower), s, ini, ini, hi) == Split(Llama3(t, t.lower), s, pos, pos, hi)
      invariant e == pos ==> ini == pos && t.flags(s[pos]).isNumber
      decreases hi - e
    {
      e := e + 1;
      if e - ini >= 3 {
        DigitMatch(t, s, ini, e, hi);
        ghost var rest := Split(Llama3(t, t.lower), s, e, e, hi);
        assert (out + [e - ini]) + rest == out + ([e - ini] + rest);
        out := out + [e - ini];
        ini := e;
      }
    }
    if e > ini {
      DigitMatch(t, s, ini, e, hi);
      ghost var rest := Split(Llama3(t, t.lower), s, e, e, hi);
      assert (out + [e - ini]) + rest == out + ([e - ini] + rest);
      out := out + [e - ini];
    }
  }

  // Up to three digits that cannot be extended are one match.
  lemma DigitMatch(t: Tables, s: seq<nat>, i: nat, e: nat, hi: nat)
    requires i < e <= hi <= |s| && e - i <= 3 && Classified(t)
    requires forall k :: i <= k < e ==> t.flags(s[k]).isNumber
    requires e - i == 3 || !FlagsAt(t, s, e, hi).isNumber
    ensures Split(Llama3(t, t.lower), s, i, i, hi) == [e - i] + Split(Llama3(t, t.lower), s, e, e, hi)
  {
    hide First, Llama3;
    forall k | i <= k < e ensures In(Number(t), s, k, hi) {}
    RunAtLeast(Number(t), s, i, e, hi);
    if e - i < 3 {
      RunIs(Number(t), s, i, e, hi);
    }
    assert !In(Letter(t), s, i, hi) && !In(Lead(t), s, i, hi);
    FirstLlama3(t, t.lower, s, i, hi);
    SplitStep(Llama3(t, t.lower), s, i, e, hi);
  }

  method ScanLlama3Segment(t: Tables, s: seq<nat>, ini: nat, hi: nat) returns (out: seq<nat>)
    requires ini <= hi <= |s| && Classified(t) && CodePoints(s)
    ensures out == Split(Llama3(t, t.lower), s, ini, ini, hi)
  {
    hide First, Llama3, Llama3End;
    out := [];
    var pos := ini;
    while pos < hi
      invariant ini <= pos <= hi
      invariant out + Split(Llama3(t, t.lower), s, pos, pos, hi) == Split(Llama3(t, t.lower), s, ini, ini, hi)
      decreases hi - pos
    {
      var tokens, e;
      if t.flags(s[pos]).isNumber {
        tokens, e := DigitRun(t, s, pos, hi);
      } else {
        e := NextLlama3(t, s, pos, hi);
        FirstLlama3(t, t.lower, s, pos, hi);
        SplitStep(Llama3(t, t.lower), s, pos, e, hi);
        tokens := [e - pos];
      }
      ghost var rest := Split(Llama3(t, t.lower), s, e, e, hi);
      assert (out + tokens) + rest == out + (tokens + rest);
      out := out + tokens;
      pos := e;
    }
    assert out + [] == out;
  }

  method ScanLlama3(t: Tables, s: seq<nat>, offsets: seq<nat>) returns (out: seq<nat>)
    requires Sum(offsets) <= |s| && Classified(t) && CodePoints(s)
    ensures out == SplitSegments(Llama3(t, t.lower), s, offsets, 0)
  {
    hide Split, Llama3;
    out := [];
    var start: nat, k: nat := 0, 0;
    assert offsets[0..] == offsets;
    while k < |offsets|
      invariant 0 <= k <= |offsets| && start + Sum(offsets[k..]) <= |s|
      invariant out + SplitSegments(Llama3(t, t.lower), s, offsets[k..], start) == SplitSegments(Llama3(t, t.lower), s, offsets, 0)
    {
      assert offsets[k..][1..] == offsets[k + 1..];
      var tokens := ScanLlama3Segment(t, s, start, start + offsets[k]);
      ghost var rest := SplitSegments(Llama3(t, t.lower), s, offsets[k + 1..], start + offsets[k]);
      assert (out + tokens) + rest == out + (tokens + rest);
      out := out + tokens;
      start := start + offsets[k];
      k := k + 1;
    }
    assert out + [] == out;
  }

  // ---------------------------------------------------------------- the dispatch strings

  // A lone white-space character in front of something else: the only place
  // where the dispatched expression does not match.
  ghost predicate LoneWhite(t: Tables, s: seq<nat>, i: nat, hi: nat)
    requires i < hi <= |s|
  {
    var j := AfterSpace(s, i, hi);
    ContractionLen(Same(), s, i, hi) == 0
    && !In(Letter(t), s, j, hi) && !In(Number(t), s, j, hi) && !In(Other(t), s, j, hi)
    && RunEnd(White(t), s, i, hi) == i + 1 < hi
  }

  lemma FirstGpt2Dispatched(t: Tables, s: seq<nat>, i: nat, hi: nat)
    requires i < hi <= |s| && Classified(t)
    ensures First(Gpt2Dispatched(t), s, i, hi) ==
            if LoneWhite(t, s, i, hi) then None else Some(Gpt2End(t, s, i, hi))
  {
    hide Ends, EndsAll, First, Contraction, SpaceThen, WhiteNotLast, Plus, ContractionLen;
    var a4 := Alt(SpaceThen(Other(t)), WhiteNotLast(t));
    var a3 := Alt(SpaceThen(Number(t)), a4);
    var a2 := Alt(SpaceThen(Letter(t)), a3);
    FirstContraction(Same(), s, i, hi);
    FirstSpaceThen(Letter(t), s, i, hi);
    FirstSpaceThen(Number(t), s, i, hi);
    FirstSpaceThen(Other(t), s, i, hi);
    FirstWhiteNotLast(t, s, i, hi);
    FirstAlt(SpaceThen(Other(t)), WhiteNotLast(t), s, i, hi);
    FirstAlt(SpaceThen(Number(t)), a4, s, i, hi);
    FirstAlt(SpaceThen(Letter(t)), a3, s, i, hi);
    FirstAlt(Contraction(Same()), a2, s, i, hi);
  }

  lemma AfterLoneWhite(t: Tables, s: seq<nat>, i: nat, hi: nat)
    requires i < hi <= |s| && Classified(t) && LoneWhite(t, s, i, hi)
    ensures i + 1 < hi && !LoneWhite(t, s, i + 1, hi) && Gpt2End(t, s, i, hi) == i + 1
  {
    assert !In(White(t), s, i + 1, hi);
    assert In(White(t), s, i, hi);
  }

  // The dispatched expression lacks the final alternative of the documented
  // one; the characters it leaves out become one-character gaps, so the tokens
  // are the same.
  lemma {:induction false} DispatchedSplitsAlike(t: Tables, s: seq<nat>, pos: nat, hi: nat)
    requires pos <= hi <= |s| && Classified(t)
    ensures Split(Gpt2Dispatched(t), s, pos, pos, hi) == Split(Gpt2(t), s, pos, pos, hi)
    decreases hi - pos
  {
    hide First, Gpt2, Gpt2Dispatched, LoneWhite, Gpt2End;
    if pos < hi {
      FirstGpt2(t, s, pos, hi);
      FirstGpt2Dispatched(t, s, pos, hi);
      var e := Gpt2End(t, s, pos, hi);
      SplitStep(Gpt2(t), s, pos, e, hi);
      if LoneWhite(t, s, pos, hi) {
        AfterLoneWhite(t, s, pos, hi);
        FirstGpt2(t, s, e, hi);
        FirstGpt2Dispatched(t, s, e, hi);
        var e1 := Gpt2End(t, s, e, hi);
        SplitStep(Gpt2(t), s, e, e1, hi);
        GapStep(Gpt2Dispatched(t), s, pos, e1, hi);
        DispatchedSplitsAlike(t, s, e1, hi);
        assert [1] + ([e1 - e] + Split(Gpt2(t), s, e1, e1, hi)) == [1] + [e1 - e] + Split(Gpt2(t), s, e1, e1, hi);
      } else {
        SplitStep(Gpt2Dispatched(t), s, pos, e, hi);
        DispatchedSplitsAlike(t, s, e, hi);
      }
    }
  }

  lemma GapStep(re: Re, s: seq<nat>, pos: nat, e: nat, hi: nat)
    requires pos + 1 < e <= hi <= |s| && First(re, s, pos, hi) == None && First(re, s, pos + 1, hi) == Some(e)
    ensures Split(re, s, pos, pos, hi) == [1] + [e - (pos + 1)] + Split(re, s, e, e, hi)
  {
    hide First;
    assert Split(re, s, pos, pos, hi) == Split(re, s, pos, pos + 1, hi);
  }

  // The second scanner also serves the expression that spells out both cases
  // of the contraction letters, 's' as [sS] and so on.
  function AsciiLower(): nat -> nat { (c: nat) => if 65 <= c <= 90 then c + 32 else c }

  // The letters contractions are made of.
  predicate Used(k: nat) {
    k == 's' as nat || k == 't' as nat || k == 'r' as nat || k == 'e' as nat
    || k == 'v' as nat || k == 'm' as nat || k == 'l' as nat || k == 'd' as nat
  }

  // The lower-case table sends only ASCII letters to those letters.
  ghost predicate FoldsAscii(t: Tables) {
    forall c :: t.lower(c) == AsciiLower()(c) || (!Used(t.lower(c)) && !Used(AsciiLower()(c)))
  }

  lemma SameContraction(t: Tables, s: seq<nat>, i: nat, hi: nat)
    requires i < hi <= |s| && FoldsAscii(t)
    ensures ContractionLen(t.lower, s, i, hi) == ContractionLen(AsciiLower(), s, i, hi)
  {
  }

  lemma {:induction false} BothCasesSplitAlike(t: Tables, s: seq<nat>, pos: nat, hi: nat)
    requires pos <= hi <= |s| && Classified(t) && FoldsAscii(t)
    ensures Split(Llama3(t, AsciiLower()), s, pos, pos, hi) == Split(Llama3(t, t.lower), s, pos, pos, hi)
    decreases hi - pos
  {
    hide First, Llama3, ContractionLen;
    if pos < hi {
      SameContraction(t, s, pos, hi);
      FirstLlama3(t, t.lower, s, pos, hi);
      FirstLlama3(t, AsciiLower(), s, pos, hi);
      var e := Llama3End(t, t.lower, s, pos, hi);
      SplitStep(Llama3(t, t.lower), s, pos, e, hi);
      SplitStep(Llama3(t, AsciiLower()), s, pos, e, hi);
      BothCasesSplitAlike(t, s, e, hi);
    }
  }
}
