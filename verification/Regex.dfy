/**
 Ordered, greedy, backtracking regular-expression matching, and the splitting
 of a text into matches and gaps. Repetition is only needed over one-character
 classes; `s[..hi]` is the segment being matched.
 */
module Regex {
  import opened Wrappers

  datatype Re =
    | Cls(p: nat -> bool)                       // one character of a class
    | Cat(fst: Re, snd: Re)
    | Alt(left: Re, right: Re)                  // left first
    | Opt(r: Re)                                // r?
    | Star(p: nat -> bool)                      // [p]*
    | Rep(p: nat -> bool, max: nat)             // [p]{1,max}
    | NotAhead(p: nat -> bool)                  // (?![p])

  function Plus(p: nat -> bool): Re {
    Cat(Cls(p), Star(p))
  }

  predicate In(p: nat -> bool, s: seq<nat>, i: nat, hi: nat)
    requires hi <= |s|
  {
    i < hi && p(s[i])
  }

  // All ways to match at i, in the order backtracking tries them, as end positions.
  function Ends(re: Re, s: seq<nat>, i: nat, hi: nat): seq<nat>
    requires hi <= |s|
    decreases re, 0, 0
  {
    match re
    case Cls(p) => if In(p, s, i, hi) then [i + 1] else []
    case Cat(a, b) => EndsAll(b, s, Ends(a, s, i, hi), hi)
    case Alt(a, b) => Ends(a, s, i, hi) + Ends(b, s, i, hi)
    case Opt(a) => Ends(a, s, i, hi) + [i]
    case Star(p) => StarEnds(p, s, i, hi)
    case Rep(p, max) => if max > 0 && In(p, s, i, hi) then RepEnds(p, max - 1, s, i + 1, hi) else []
    case NotAhead(p) => if In(p, s, i, hi) then [] else [i]
  }

  function EndsAll(re: Re, s: seq<nat>, starts: seq<nat>, hi: nat): seq<nat>
    requires hi <= |s|
    decreases re, 1, |starts|
  {
    if starts == [] then []
    else Ends(re, s, starts[0], hi) + EndsAll(re, s, starts[1..], hi)
  }

  // As many as possible first.
  function StarEnds(p: nat -> bool, s: seq<nat>, i: nat, hi: nat): seq<nat>
    requires hi <= |s|
    decreases hi - i
  {
    if In(p, s, i, hi) then StarEnds(p, s, i + 1, hi) + [i] else [i]
  }

  // Up to n more.
  function RepEnds(p: nat -> bool, n: nat, s: seq<nat>, i: nat, hi: nat): seq<nat>
    requires hi <= |s|
  {
    if n > 0 && In(p, s, i, hi) then RepEnds(p, n - 1, s, i + 1, hi) + [i] else [i]
  }

  // The match backtracking reports at i.
  function First(re: Re, s: seq<nat>, i: nat, hi: nat): Option<nat>
    requires hi <= |s|
  {
    var es := Ends(re, s, i, hi);
    if es == [] then None else Some(es[0])
  }

  // Cut a segment at its successive matches: every match is a token, and so is
  // every maximal stretch between matches. `prev` is the end of the last token.
  function Split(re: Re, s: seq<nat>, prev: nat, pos: nat, hi: nat): seq<nat>
    requires prev <= pos <= hi <= |s|
    decreases hi - pos
  {
    if pos == hi then (if prev < pos then [pos - prev] else [])
    else
      match First(re, s, pos, hi)
      case Some(e) =>
        if pos < e <= hi
        then (if prev < pos then [pos - prev] else []) + [e - pos] + Split(re, s, e, e, hi)
        else Split(re, s, prev, pos + 1, hi)  // no empty match is taken
      case None => Split(re, s, prev, pos + 1, hi)
  }

  // ---------------------------------------------------------------- runs

  // End of the run of characters in p that starts at i.
  function RunEnd(p: nat -> bool, s: seq<nat>, i: nat, hi: nat): (r: nat)
    requires hi <= |s|
    ensures i <= r && (i <= hi ==> r <= hi) && !In(p, s, r, hi)
    ensures forall k :: i <= k < r ==> In(p, s, k, hi)
    decreases hi - i
  {
    if In(p, s, i, hi) then RunEnd(p, s, i + 1, hi) else i
  }

  lemma {:induction false} RunIs(p: nat -> bool, s: seq<nat>, i: nat, r: nat, hi: nat)
    requires hi <= |s| && i <= r
    requires forall k :: i <= k < r ==> In(p, s, k, hi)
    requires !In(p, s, r, hi)
    ensures RunEnd(p, s, i, hi) == r
    decreases r - i
  {
    if i < r {
      assert In(p, s, i, hi);
      RunIs(p, s, i + 1, r, hi);
    }
  }

  lemma {:induction false} RunAtLeast(p: nat -> bool, s: seq<nat>, i: nat, e: nat, hi: nat)
    requires hi <= |s| && i <= e
    requires forall k :: i <= k < e ==> In(p, s, k, hi)
    ensures RunEnd(p, s, i, hi) >= e
    decreases e - i
  {
    if i < e {
      assert In(p, s, i, hi);
      RunAtLeast(p, s, i + 1, e, hi);
    }
  }

  // A greedy class repetition tries its whole run first and gives back one
  // character at a time.
  lemma {:induction false} StarIsRun(p: nat -> bool, s: seq<nat>, i: nat, hi: nat)
    requires hi <= |s|
    ensures |StarEnds(p, s, i, hi)| == RunEnd(p, s, i, hi) - i + 1
    ensures forall k :: 0 <= k <= RunEnd(p, s, i, hi) - i ==> StarEnds(p, s, i, hi)[k] == RunEnd(p, s, i, hi) - k
    decreases hi - i
  {
    if In(p, s, i, hi) {
      StarIsRun(p, s, i + 1, hi);
    }
  }

  lemma {:induction false} RepIsRun(p: nat -> bool, n: nat, s: seq<nat>, i: nat, hi: nat)
    requires hi <= |s|
    ensures RepEnds(p, n, s, i, hi) != []
    ensures RepEnds(p, n, s, i, hi)[0] ==
            if RunEnd(p, s, i, hi) - i < n then RunEnd(p, s, i, hi) else i + n
    decreases n
  {
    if n > 0 && In(p, s, i, hi) {
      RepIsRun(p, n - 1, s, i + 1, hi);
    }
  }

  // ---------------------------------------------------------------- first matches

  lemma FirstAlt(a: Re, b: Re, s: seq<nat>, i: nat, hi: nat)
    requires hi <= |s|
    ensures First(Alt(a, b), s, i, hi) == if First(a, s, i, hi).Some? then First(a, s, i, hi) else First(b, s, i, hi)
  {
  }

  lemma EndsAllOne(re: Re, s: seq<nat>, e: nat, hi: nat)
    requires hi <= |s|
    ensures EndsAll(re, s, [e], hi) == Ends(re, s, e, hi)
  {
    assert [e][1..] == [];
  }

  lemma EndsCatOne(a: Re, b: Re, s: seq<nat>, i: nat, hi: nat)
    requires hi <= |s|
    ensures |Ends(a, s, i, hi)| == 1 ==> Ends(Cat(a, b), s, i, hi) == Ends(b, s, Ends(a, s, i, hi)[0], hi)
    ensures Ends(a, s, i, hi) == [] ==> Ends(Cat(a, b), s, i, hi) == []
  {
    var es := Ends(a, s, i, hi);
    if |es| == 1 {
      assert es == [es[0]];
      EndsAllOne(b, s, es[0], hi);
    }
  }

  // [p]+ matches its run, if there is one.
  lemma EndsPlus(p: nat -> bool, s: seq<nat>, i: nat, hi: nat)
    requires hi <= |s|
    ensures Ends(Plus(p), s, i, hi) == if In(p, s, i, hi) then StarEnds(p, s, i + 1, hi) else []
  {
    EndsCatOne(Cls(p), Star(p), s, i, hi);
  }

  lemma FirstPlus(p: nat -> bool, s: seq<nat>, i: nat, hi: nat)
    requires hi <= |s|
    ensures First(Plus(p), s, i, hi) == if In(p, s, i, hi) then Some(RunEnd(p, s, i, hi)) else None
  {
    EndsPlus(p, s, i, hi);
    StarIsRun(p, s, i + 1, hi);
  }

  // An optional leading character of a class: with it first, without it second.
  lemma EndsOptCat(q: nat -> bool, b: Re, s: seq<nat>, i: nat, hi: nat)
    requires hi <= |s|
    ensures Ends(Cat(Opt(Cls(q)), b), s, i, hi) ==
            (if In(q, s, i, hi) then Ends(b, s, i + 1, hi) else []) + Ends(b, s, i, hi)
  {
    if In(q, s, i, hi) {
      assert Ends(Opt(Cls(q)), s, i, hi) == [i + 1, i];
      assert [i + 1, i][1..] == [i];
      EndsAllOne(b, s, i, hi);
    } else {
      assert Ends(Opt(Cls(q)), s, i, hi) == [i];
      EndsAllOne(b, s, i, hi);
    }
  }

  lemma FirstOptCat(q: nat -> bool, b: Re, s: seq<nat>, i: nat, hi: nat)
    requires hi <= |s|
    ensures First(Cat(Opt(Cls(q)), b), s, i, hi) ==
            if In(q, s, i, hi) && First(b, s, i + 1, hi).Some? then First(b, s, i + 1, hi) else First(b, s, i, hi)
  {
    EndsOptCat(q, b, s, i, hi);
  }

  // The first start that leads to a match decides.
  lemma {:induction false} EndsAllFirst(re: Re, s: seq<nat>, starts: seq<nat>, k: nat, hi: nat)
    requires hi <= |s| && k <= |starts|
    requires forall j :: 0 <= j < k ==> Ends(re, s, starts[j], hi) == []
    ensures k == |starts| ==> EndsAll(re, s, starts, hi) == []
    ensures k < |starts| && Ends(re, s, starts[k], hi) != [] ==>
              EndsAll(re, s, starts, hi) != [] && EndsAll(re, s, starts, hi)[0] == Ends(re, s, starts[k], hi)[0]
    decreases k
  {
    hide Ends;
    if k > 0 {
      assert forall j :: 0 <= j < k - 1 ==> starts[1..][j] == starts[j + 1];
      EndsAllFirst(re, s, starts[1..], k - 1, hi);
    }
  }

  lemma CatStarEnds(p: nat -> bool, b: Re, s: seq<nat>, i: nat, hi: nat)
    requires hi <= |s|
    ensures Ends(Cat(Star(p), b), s, i, hi) == EndsAll(b, s, StarEnds(p, s, i, hi), hi)
  {
    assert Ends(Star(p), s, i, hi) == StarEnds(p, s, i, hi);
  }

  // The last place up to which [p]* can run and from which b matches.
  ghost predicate LongestLead(p: nat -> bool, b: Re, s: seq<nat>, i: nat, hi: nat, k: nat)
    requires hi <= |s|
  {
    && i <= k <= RunEnd(p, s, i, hi) && First(b, s, k, hi).Some?
    && forall j :: k < j <= RunEnd(p, s, i, hi) ==> First(b, s, j, hi).None?
  }

  // [p]* followed by b matches exactly when b matches behind some part of the
  // run, and then it takes the longest such part.
  lemma FirstCatStar(p: nat -> bool, b: Re, s: seq<nat>, i: nat, hi: nat)
    requires hi <= |s|
    ensures forall k :: LongestLead(p, b, s, i, hi, k) ==> First(Cat(Star(p), b), s, i, hi) == First(b, s, k, hi)
    ensures First(Cat(Star(p), b), s, i, hi).None? <==>
              forall k :: i <= k <= RunEnd(p, s, i, hi) ==> First(b, s, k, hi).None?
    ensures First(Cat(Star(p), b), s, i, hi).Some? ==> exists k :: LongestLead(p, b, s, i, hi, k)
  {
    hide Ends, RunEnd;
    forall k | LongestLead(p, b, s, i, hi, k) ensures First(Cat(Star(p), b), s, i, hi) == First(b, s, k, hi) {
      LeadDecides(p, b, s, i, hi, k);
    }
    if forall k :: i <= k <= RunEnd(p, s, i, hi) ==> First(b, s, k, hi).None? {
      NoLead(p, b, s, i, hi);
    } else {
      var k := FindLead(p, b, s, i, hi);
    }
  }

  lemma FindLead(p: nat -> bool, b: Re, s: seq<nat>, i: nat, hi: nat) returns (k: nat)
    requires hi <= |s| && exists j :: i <= j <= RunEnd(p, s, i, hi) && First(b, s, j, hi).Some?
    ensures LongestLead(p, b, s, i, hi, k)
  {
    hide First;
    var j :| i <= j <= RunEnd(p, s, i, hi) && First(b, s, j, hi).Some?;
    k := RunEnd(p, s, i, hi);
    while First(b, s, k, hi).None?
      invariant j <= k <= RunEnd(p, s, i, hi)
      invariant forall m :: k < m <= RunEnd(p, s, i, hi) ==> First(b, s, m, hi).None?
      decreases k
    {
      k := k - 1;
    }
  }

  lemma NoLead(p: nat -> bool, b: Re, s: seq<nat>, i: nat, hi: nat)
    requires hi <= |s| && forall k :: i <= k <= RunEnd(p, s, i, hi) ==> First(b, s, k, hi).None?
    ensures First(Cat(Star(p), b), s, i, hi).None?
  {
    hide Ends, EndsAll;
    var r, es := RunEnd(p, s, i, hi), StarEnds(p, s, i, hi);
    StarIsRun(p, s, i, hi);
    CatStarEnds(p, b, s, i, hi);
    forall j | 0 <= j < |es| ensures Ends(b, s, es[j], hi) == [] {
      assert es[j] == r - j;
      assert First(b, s, r - j, hi).None?;
    }
    EndsAllFirst(b, s, es, |es|, hi);
  }

  lemma LeadDecides(p: nat -> bool, b: Re, s: seq<nat>, i: nat, hi: nat, k: nat)
    requires hi <= |s| && LongestLead(p, b, s, i, hi, k)
    ensures First(Cat(Star(p), b), s, i, hi) == First(b, s, k, hi)
  {
    hide Ends, EndsAll;
    var r, es := RunEnd(p, s, i, hi), StarEnds(p, s, i, hi);
    StarIsRun(p, s, i, hi);
    CatStarEnds(p, b, s, i, hi);
    forall j | 0 <= j < r - k ensures Ends(b, s, es[j], hi) == [] {
      assert es[j] == r - j;
      assert First(b, s, r - j, hi).None?;
    }
    assert es[r - k] == k;
    EndsAllFirst(b, s, es, r - k, hi);
  }

  // ---------------------------------------------------------------- locality

  // Matching in a segment depends on nothing but the segment.
  function Moved(es: seq<nat>, d: nat): seq<nat> {
    seq(|es|, k requires 0 <= k < |es| => es[k] + d)
  }

  lemma {:induction false} EndsLocal(re: Re, s: seq<nat>, i: nat, lo: nat, hi: nat)
    requires lo <= hi <= |s|
    ensures Ends(re, s, lo + i, hi) == Moved(Ends(re, s[lo..hi], i, hi - lo), lo)
    decreases re, 0
  {
    var w, n := s[lo..hi], hi - lo;
    match re
    case Cls(p) =>
    case NotAhead(p) =>
    case Cat(a, b) =>
      EndsLocal(a, s, i, lo, hi);
      EndsAllLocal(b, s, Ends(a, w, i, n), lo, hi);
    case Alt(a, b) =>
      EndsLocal(a, s, i, lo, hi);
      EndsLocal(b, s, i, lo, hi);
    case Opt(a) =>
      EndsLocal(a, s, i, lo, hi);
    case Star(p) =>
      StarLocal(p, s, i, lo, hi);
    case Rep(p, max) =>
      if max > 0 && In(p, w, i, n) {
        RepLocal(p, max - 1, s, i + 1, lo, hi);
      }
  }

  lemma {:induction false} EndsAllLocal(re: Re, s: seq<nat>, es: seq<nat>, lo: nat, hi: nat)
    requires lo <= hi <= |s|
    ensures EndsAll(re, s, Moved(es, lo), hi) == Moved(EndsAll(re, s[lo..hi], es, hi - lo), lo)
    decreases re, 1, |es|
  {
    if es != [] {
      EndsLocal(re, s, es[0], lo, hi);
      assert Moved(es, lo)[1..] == Moved(es[1..], lo);
      EndsAllLocal(re, s, es[1..], lo, hi);
    }
  }

  lemma {:induction false} StarLocal(p: nat -> bool, s: seq<nat>, i: nat, lo: nat, hi: nat)
    requires lo <= hi <= |s|
    ensures StarEnds(p, s, lo + i, hi) == Moved(StarEnds(p, s[lo..hi], i, hi - lo), lo)
    decreases hi - lo - i
  {
    if In(p, s, lo + i, hi) {
      StarLocal(p, s, i + 1, lo, hi);
    }
  }

  lemma {:induction false} RepLocal(p: nat -> bool, n: nat, s: seq<nat>, i: nat, lo: nat, hi: nat)
    requires lo <= hi <= |s|
    ensures RepEnds(p, n, s, lo + i, hi) == Moved(RepEnds(p, n, s[lo..hi], i, hi - lo), lo)
    decreases n
  {
    if n > 0 && In(p, s, lo + i, hi) {
      RepLocal(p, n - 1, s, i + 1, lo, hi);
    }
  }

  // So the tokens of a segment are those of the segment on its own.
  lemma {:induction false} SplitLocal(re: Re, s: seq<nat>, prev: nat, pos: nat, lo: nat, hi: nat)
    requires lo <= hi <= |s| && prev <= pos <= hi - lo
    ensures Split(re, s, lo + prev, lo + pos, hi) == Split(re, s[lo..hi], prev, pos, hi - lo)
    decreases hi - lo - pos
  {
    hide Ends;
    var w := s[lo..hi];
    if pos < hi - lo {
      EndsLocal(re, s, pos, lo, hi);
      var f := First(re, w, pos, hi - lo);
      assert First(re, s, lo + pos, hi) == if f.Some? then Some(f.value + lo) else None;
      if f.Some? && pos < f.value <= hi - lo {
        SplitLocal(re, s, f.value, f.value, lo, hi);
      } else {
        SplitLocal(re, s, prev, pos + 1, lo, hi);
      }
    }
  }
}
