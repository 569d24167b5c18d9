/**
 Streaming output of UTF-8: complete characters are passed on, an incomplete
 tail waits for the next chunk.
 */
module Utf8Stream {
  import opened Wrappers
  import opened Bytes
  import Utf8

  // Length announced by a lead byte; anything else is passed through alone.
  function Need(c: byte): (n: nat)
    ensures 1 <= n <= 4
  {
    if c < 0x80 then 1
    else if 0xC0 <= c < 0xE0 then 2
    else if 0xE0 <= c < 0xF0 then 3
    else if 0xF0 <= c < 0xF8 then 4
    else 1
  }

  // Where the first incomplete character after i starts.
  function CompleteFrom(s: seq<byte>, i: nat): (n: nat)
    requires i <= |s|
    ensures i <= n <= |s|
    ensures n < |s| ==> n + Need(s[n]) > |s|
    decreases |s| - i
  {
    if i == |s| || i + Need(s[i]) > |s| then i else CompleteFrom(s, i + Need(s[i]))
  }

  // More input does not change where the complete characters found so far end.
  lemma {:induction false} MoreInput(a: seq<byte>, b: seq<byte>, i: nat)
    requires i <= |a|
    ensures CompleteFrom(a + b, i) == CompleteFrom(a + b, CompleteFrom(a, i))
    decreases |a| - i
  {
    if i < |a| && i + Need(a[i]) <= |a| {
      MoreInput(a, b, i + Need(a[i]));
    }
  }

  // What lies before i does not matter.
  lemma {:induction false} FromTail(s: seq<byte>, k: nat, i: nat)
    requires k <= i <= |s|
    ensures CompleteFrom(s, i) == k + CompleteFrom(s[k..], i - k)
    decreases |s| - i
  {
    if i < |s| && i + Need(s[i]) <= |s| {
      FromTail(s, k, i + Need(s[i]));
    }
  }

  // The pending bytes are always the start of one unfinished character.
  lemma ShortTail(s: seq<byte>)
    ensures |s| - CompleteFrom(s, 0) <= 3
  {
  }

  // s is cut into its complete prefix and the unfinished rest.
  ghost predicate IsCut(s: seq<byte>, out: seq<byte>, tail: seq<byte>) {
    out + tail == s && |out| == CompleteFrom(s, 0)
  }

  // The chunks so far, and what they should have produced.
  class Stream {
    var pending: seq<byte>
    ghost var received: seq<byte>
    ghost var emitted: seq<byte>

    // Whatever the chunking, the output is the complete prefix of the input.
    ghost predicate Valid()
      reads this
    {
      IsCut(received, emitted, pending)
    }

    constructor ()
      ensures Valid() && received == [] && emitted == [] && pending == []
    {
      pending, received, emitted := [], [], [];
    }

    static method CompleteLen(s: seq<byte>) returns (n: nat)
      ensures n == CompleteFrom(s, 0)
    {
      var i, lastComplete := 0, 0;
      while i < |s|
        invariant 0 <= i <= |s| && lastComplete == i
        invariant CompleteFrom(s, 0) == CompleteFrom(s, i)
        decreases |s| - i
      {
        var c := s[i];
        var need;
        if c < 0x80 {
          need := 1;
        } else if 0xC0 <= c < 0xE0 {
          need := 2;
        } else if 0xE0 <= c < 0xF0 {
          need := 3;
        } else if 0xF0 <= c < 0xF8 {
          need := 4;
        } else {
          i := i + 1;
          lastComplete := i;
          continue;
        }
        if i + need > |s| {
          break;
        }
        i := i + need;
        lastComplete := i;
      }
      n := lastComplete;
    }

    method Push(bytes: seq<byte>) returns (out: seq<byte>)
      requires Valid()
      modifies this
      ensures Valid() && received == old(received) + bytes && emitted == old(emitted) + out
      ensures IsCut(old(pending) + bytes, out, pending) && |pending| <= 3
    {
      hide CompleteFrom;
      ghost var e, p := emitted, pending;
      pending := pending + bytes;
      var n := CompleteLen(pending);
      out := pending[..n];
      pending := pending[n..];
      CutMore(received, bytes, e, p, out, pending);
      received := received + bytes;
      emitted := emitted + out;
      ShortTail(received);
    }

    // What is pending is handed out as it is; the stream starts over.
    method Flush() returns (out: seq<byte>)
      requires Valid()
      modifies this
      ensures Valid() && old(emitted) + out == old(received)
      ensures pending == [] && received == [] && emitted == []
    {
      out := pending;
      pending := [];
      received, emitted := [], [];
    }
  }

  // Completing the tail and completing the whole give the same cut.
  lemma CutMore(s: seq<byte>, bytes: seq<byte>, e: seq<byte>, p: seq<byte>, out: seq<byte>, tail: seq<byte>)
    requires IsCut(s, e, p) && IsCut(p + bytes, out, tail)
    ensures IsCut(s + bytes, e + out, tail)
  {
    hide CompleteFrom;
    var t := p + bytes;
    Assoc(e, p, bytes);
    MoreInput(s, bytes, 0);
    AfterPrefix(e, t);
    Assoc(e, out, tail);
  }

  lemma AfterPrefix(e: seq<byte>, t: seq<byte>)
    ensures CompleteFrom(e + t, |e|) == |e| + CompleteFrom(t, 0)
  {
    hide CompleteFrom;
    FromTail(e + t, |e|, |e|);
    assert (e + t)[|e|..] == t;
  }

  lemma Assoc(a: seq<byte>, b: seq<byte>, c: seq<byte>)
    ensures (a + b) + c == a + (b + c)
  {
  }

  // What is left over is unfinished from its first byte.
  lemma TailUnfinished(s: seq<byte>, out: seq<byte>, tail: seq<byte>)
    requires IsCut(s, out, tail)
    ensures CompleteFrom(tail, 0) == 0
  {
    hide CompleteFrom;
    FromTail(s, |out|, |out|);
    MoreInput(s, [], 0);
    assert s + [] == s && s[|out|..] == tail;
  }

  // Outputs of a whole sequence of pushes, and the bytes still pending after it.
  function Outputs(chunks: seq<seq<byte>>, pending: seq<byte>): (r: (seq<byte>, seq<byte>))
    decreases |chunks|
  {
    if chunks == [] then ([], pending)
    else
      var s := pending + chunks[0];
      var n := CompleteFrom(s, 0);
      var rest := Outputs(chunks[1..], s[n..]);
      (s[..n] + rest.0, rest.1)
  }

  function Joined(chunks: seq<seq<byte>>): seq<byte> {
    if chunks == [] then [] else chunks[0] + Joined(chunks[1..])
  }

  lemma StartCut(s: seq<byte>)
    requires CompleteFrom(s, 0) == 0
    ensures IsCut(s, [], s)
  {
  }

  lemma CutAtComplete(s: seq<byte>)
    ensures IsCut(s, s[..CompleteFrom(s, 0)], s[CompleteFrom(s, 0)..])
  {
  }

  // Any chunking of the same bytes produces the same output and the same tail.
  lemma {:induction false} ChunkingIndependent(chunks: seq<seq<byte>>, pending: seq<byte>)
    requires CompleteFrom(pending, 0) == 0
    ensures IsCut(pending + Joined(chunks), Outputs(chunks, pending).0, Outputs(chunks, pending).1)
    decreases |chunks|
  {
    hide CompleteFrom, IsCut;
    if chunks == [] {
      StartCut(pending);
      assert pending + [] == pending;
    } else {
      var s, rest := pending + chunks[0], Joined(chunks[1..]);
      var n := CompleteFrom(s, 0);
      CutAtComplete(s);
      TailUnfinished(s, s[..n], s[n..]);
      ChunkingIndependent(chunks[1..], s[n..]);
      var r := Outputs(chunks[1..], s[n..]);
      CutMore(s, rest, s[..n], s[n..], r.0, r.1);
      Assoc(pending, chunks[0], rest);
    }
  }

  // ---------------------------------------------------------------- against the codec

  // A lead byte announces the length of what the decoder takes from there, and
  // any other byte that cannot start a character is passed on alone.
  lemma CharacterPasses(s: seq<byte>)
    requires s != []
    ensures Utf8.DecodeOne(s, 0).Ok? ==>
              var j := Utf8.DecodeOne(s, 0).value.1;
              j <= |s| && CompleteFrom(s, 0) == j + CompleteFrom(s[j..], 0)
    ensures 0x80 <= s[0] < 0xC0 || s[0] >= 0xF8 ==> CompleteFrom(s, 0) == 1 + CompleteFrom(s[1..], 0)
  {
    if Need(s[0]) <= |s| {
      FromTail(s, Need(s[0]), Need(s[0]));
    }
  }

  lemma LeadNeeds(cp: nat)
    requires Utf8.EncodeOne(cp).Ok?
    ensures Utf8.EncodeOne(cp).value != [] && Need(Utf8.EncodeOne(cp).value[0]) == |Utf8.EncodeOne(cp).value|
  {}

  // The first k code points are the ones whose encodings fit into n bytes.
  ghost predicate Fitting(cps: seq<nat>, n: nat, k: nat) {
    && k <= |cps| && Utf8.Encode(cps[..k]).Ok? && |Utf8.Encode(cps[..k]).value| <= n
    && (k < |cps| ==> Utf8.Encode(cps[..k + 1]).Ok? && n < |Utf8.Encode(cps[..k + 1]).value|)
  }

  // The first n bytes of an encoded text are cut behind the last code point
  // that is in them as a whole.
  lemma {:induction false} EncodedCut(cps: seq<nat>, s: seq<byte>, n: nat) returns (k: nat)
    requires Utf8.Encode(cps) == Ok(s) && n <= |s|
    ensures Fitting(cps, n, k) && CompleteFrom(s[..n], 0) == |Utf8.Encode(cps[..k]).value|
    ensures Utf8.Encode(cps[..k]).value <= s
    decreases |cps|
  {
    hide CompleteFrom, Need, Utf8.Encode, Utf8.EncodeOne;
    NothingEncoded();
    k := 0;
    if cps == [] {
      assert cps[..0] == cps;
      CutShort(s[..n]);
    } else {
      var e, rest := FirstEncoded(cps, s);
      LeadNeeds(cps[0]);
      assert cps[..0] == [] && cps[..1] == [cps[0]];
      if n < |e| {
        OneEncoded(cps[0]);
        CutShort(s[..n]);
      } else {
        var m := EncodedCut(cps[1..], rest, n - |e|);
        k := m + 1;
        PrefixEncoded(cps, m);
        assert s[..n] == e + rest[..n - |e|];
        CutBehind(e, rest[..n - |e|]);
        if k < |cps| {
          PrefixEncoded(cps, m + 1);
        }
      }
    }
  }

  lemma NothingEncoded()
    ensures Utf8.Encode([]) == Ok([])
  {}

  lemma OneEncoded(cp: nat)
    ensures Utf8.EncodeOne(cp).Ok? ==> Utf8.Encode([cp]) == Utf8.EncodeOne(cp)
  {
    assert [cp][..0] == [];
    assert Utf8.EncodeOne(cp).Ok? ==> [] + Utf8.EncodeOne(cp).value == Utf8.EncodeOne(cp).value;
  }

  lemma FirstEncoded(cps: seq<nat>, s: seq<byte>) returns (e: seq<byte>, rest: seq<byte>)
    requires cps != [] && Utf8.Encode(cps) == Ok(s)
    ensures Utf8.EncodeOne(cps[0]) == Ok(e) && Utf8.Encode(cps[1..]) == Ok(rest) && s == e + rest
  {
    hide Utf8.Encode, Utf8.EncodeOne;
    Utf8.EncodeOk(cps);
    Utf8.EncodeOk(cps[1..]);
    Utf8.OneOk(cps[0]);
    assert cps == [cps[0]] + cps[1..];
    e, rest := Utf8.EncodeOne(cps[0]).value, Utf8.Encode(cps[1..]).value;
    Utf8.EncodeCons(cps[0], cps[1..]);
  }

  lemma PrefixEncoded(cps: seq<nat>, m: nat)
    requires cps != [] && m < |cps| && Utf8.EncodeOne(cps[0]).Ok? && Utf8.Encode(cps[1..][..m]).Ok?
    ensures Utf8.Encode(cps[..m + 1]) == Ok(Utf8.EncodeOne(cps[0]).value + Utf8.Encode(cps[1..][..m]).value)
  {
    hide Utf8.Encode, Utf8.EncodeOne;
    assert cps[..m + 1] == [cps[0]] + cps[1..][..m];
    Utf8.EncodeCons(cps[0], cps[1..][..m]);
  }

  lemma CutShort(s: seq<byte>)
    requires s != [] ==> |s| < Need(s[0])
    ensures CompleteFrom(s, 0) == 0
  {}

  lemma CutBehind(e: seq<byte>, t: seq<byte>)
    requires e != [] && Need(e[0]) == |e|
    ensures CompleteFrom(e + t, 0) == |e| + CompleteFrom(t, 0)
  {
    AfterPrefix(e, t);
  }

  // While an encoded text comes in, in whatever chunks, what has gone out is at
  // every moment the encoding of the characters that have arrived as a whole;
  // at the end it is the text, and nothing is pending.
  lemma WholeCharacters(cps: seq<nat>, s: seq<byte>, n: nat, out: seq<byte>, tail: seq<byte>)
    requires Utf8.Encode(cps) == Ok(s) && n <= |s| && IsCut(s[..n], out, tail)
    ensures exists k: nat :: Fitting(cps, n, k) && Utf8.Encode(cps[..k]) == Ok(out)
    ensures n == |s| ==> out == s && tail == []
  {
    hide CompleteFrom, Utf8.Encode, Fitting;
    var k := EncodedCut(cps, s, n);
    assert Fitting(cps, n, k) && Utf8.Encode(cps[..k]).Ok? by {
      FittingOk(cps, n, k);
    }
    var v := Utf8.Encode(cps[..k]).value;
    assert out == (out + tail)[..|out|] == s[..|out|];
    assert v == s[..|v|];
    if n == |s| {
      AllFits(cps, s, k);
    }
  }

  lemma FittingOk(cps: seq<nat>, n: nat, k: nat)
    requires Fitting(cps, n, k)
    ensures k <= |cps| && Utf8.Encode(cps[..k]).Ok?
  {}

  lemma {:induction false} AllFits(cps: seq<nat>, s: seq<byte>, k: nat)
    requires Utf8.Encode(cps) == Ok(s) && Fitting(cps, |s|, k)
    ensures k == |cps| && cps[..k] == cps
  {
    hide Utf8.Encode;
    if k < |cps| {
      var a, b := cps[..k + 1], cps[k + 1..];
      assert cps == a + b;
      Utf8.EncodeOk(cps);
      Utf8.EncodeOk(b);
      Utf8.EncodeConcat(a, b);
      assert false;
    }
  }
}
