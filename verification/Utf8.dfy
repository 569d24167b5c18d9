/** The UTF-8 codec: RFC 3629 encoding, and a decoder that is more lenient. */
module Utf8 {
  import opened Wrappers
  import opened Bytes

  datatype CodecError = InvalidCharacter | InvalidCodepoint

  // ---------------------------------------------------------------- one code point

  // Lead bytes carry the top bits, every further byte six bits (the shifts by
  // 6, 12 and 18 are successive divisions by 64).
  function EncodeOne(cp: nat): Result<seq<byte>, CodecError> {
    if cp <= 0x7F then Ok([cp])
    else if cp <= 0x7FF then Ok([0xC0 + cp / 64, 0x80 + cp % 64])
    else if cp <= 0xFFFF then Ok([0xE0 + cp / 64 / 64, 0x80 + cp / 64 % 64, 0x80 + cp % 64])
    else if cp <= 0x10FFFF then
      Ok([0xF0 + cp / 64 / 64 / 64, 0x80 + cp / 64 / 64 % 64, 0x80 + cp / 64 % 64, 0x80 + cp % 64])
    else Err(InvalidCodepoint)
  }

  // 10xxxxxx
  predicate Continues(s: seq<byte>, i: nat) {
    i < |s| && 0x80 <= s[i] < 0xC0
  }

  // The six bits of a continuation byte.
  function Six(s: seq<byte>, i: nat): (r: nat)
    requires Continues(s, i)
    ensures r < 64 && s[i] == 0x80 + r
  {
    s[i] - 0x80
  }

  // The code point at i, and the offset behind it. The lead byte alone decides
  // the length; over-long forms, surrogates and values up to 0x1FFFFF pass.
  function DecodeOne(s: seq<byte>, i: nat): Result<(nat, nat), CodecError>
    requires i < |s|
  {
    var b: nat := s[i];
    if b < 0x80 then Ok((b, i + 1))
    else if b < 0xC0 then Err(InvalidCharacter)
    else if b < 0xE0 then
      if Continues(s, i + 1) then Ok(((b - 0xC0) * 64 + Six(s, i + 1), i + 2)) else Err(InvalidCharacter)
    else if b < 0xF0 then
      if Continues(s, i + 1) && Continues(s, i + 2)
      then Ok((((b - 0xE0) * 64 + Six(s, i + 1)) * 64 + Six(s, i + 2), i + 3)) else Err(InvalidCharacter)
    else if b < 0xF8 then
      if Continues(s, i + 1) && Continues(s, i + 2) && Continues(s, i + 3)
      then Ok(((((b - 0xF0) * 64 + Six(s, i + 1)) * 64 + Six(s, i + 2)) * 64 + Six(s, i + 3), i + 4))
      else Err(InvalidCharacter)
    else Err(InvalidCharacter)
  }

  lemma DecodeAdvances(s: seq<byte>, i: nat)
    requires i < |s|
    ensures DecodeOne(s, i).Ok? ==> i < DecodeOne(s, i).value.1 <= |s| && DecodeOne(s, i).value.0 <= 0x1F_FFFF
  {
  }

  // Taking one base-64 digit off, and putting it back.
  lemma Digit(q: nat, d: nat)
    requires d < 64
    ensures (q * 64 + d) / 64 == q && (q * 64 + d) % 64 == d
  {
  }

  lemma NoDigitLost(x: nat)
    ensures x / 64 * 64 + x % 64 == x
  {
  }

  // Decoding inverts encoding wherever the encoding stands.
  lemma OneRoundTrip(cp: nat, s: seq<byte>, i: nat)
    requires EncodeOne(cp).Ok? && i + |EncodeOne(cp).value| <= |s|
    requires s[i..i + |EncodeOne(cp).value|] == EncodeOne(cp).value
    ensures i < |s| && DecodeOne(s, i) == Ok((cp, i + |EncodeOne(cp).value|))
  {
    var e := EncodeOne(cp).value;
    var w := s[i..i + |e|];
    assert forall k :: 0 <= k < |e| ==> w[k] == e[k];
    assert w[0] == s[i];
    NoDigitLost(cp);
    if cp > 0x7F {
      assert w[1] == s[i + 1];
    }
    if cp > 0x7FF {
      assert w[2] == s[i + 2];
      NoDigitLost(cp / 64);
    }
    if cp > 0xFFFF {
      assert w[3] == s[i + 3];
      NoDigitLost(cp / 64 / 64);
    }
  }

  // The first byte in which s and t differ is smaller in s.
  ghost predicate Below(s: seq<byte>, t: seq<byte>) {
    exists k: nat :: DifferAt(s, t, k) && s[k] < t[k]
  }

  ghost predicate DifferAt(s: seq<byte>, t: seq<byte>, k: nat) {
    k < |s| && k < |t| && forall j :: 0 <= j < k ==> s[j] == t[j]
  }

  // Of two numbers, the larger has the larger front, or the same front and the
  // larger last digit.
  lemma Digits(x: nat, y: nat)
    ensures x < y <==> x / 64 < y / 64 || (x / 64 == y / 64 && x % 64 < y % 64)
  {
    NoDigitLost(x);
    NoDigitLost(y);
  }

  // Encodings compare byte by byte as the code points do. The sequences the
  // decoder takes in shortest form being what is encoded, this leaves one
  // encoding only.
  lemma EncodedInOrder(a: nat, b: nat)
    requires a < b && EncodeOne(a).Ok? && EncodeOne(b).Ok?
    ensures Below(EncodeOne(a).value, EncodeOne(b).value)
  {
    var s, t := EncodeOne(a).value, EncodeOne(b).value;
    Digits(a, b);
    Digits(a / 64, b / 64);
    Digits(a / 64 / 64, b / 64 / 64);
    if s[0] != t[0] {
      assert DifferAt(s, t, 0);
    } else if |s| == |t| && |s| > 1 {
      SameLead(a, b);
    }
  }

  lemma SameLead(a: nat, b: nat)
    requires a < b <= 0x10FFFF && a > 0x7F
    requires EncodeOne(a).value[0] == EncodeOne(b).value[0]
    ensures Below(EncodeOne(a).value, EncodeOne(b).value)
  {
    var s, t := EncodeOne(a).value, EncodeOne(b).value;
    Digits(a, b);
    Digits(a / 64, b / 64);
    Digits(a / 64 / 64, b / 64 / 64);
    var k := if s[1] != t[1] then 1 else if |s| > 2 && s[2] != t[2] then 2 else |s| - 1;
    assert DifferAt(s, t, k) && s[k] < t[k];
  }

  // The sequence at i is neither over-long nor beyond U+10FFFF.
  predicate ShortestAt(s: seq<byte>, i: nat)
    requires i < |s|
  {
    var b := s[i];
    if b < 0xE0 then b < 0x80 || b >= 0xC2
    else if b == 0xE0 then i + 1 < |s| && s[i + 1] >= 0xA0
    else if b == 0xF0 then i + 1 < |s| && s[i + 1] >= 0x90
    else if b == 0xF4 then i + 1 < |s| && s[i + 1] < 0x90
    else b < 0xF4
  }

  // Re-encoding a decoded sequence gives its bytes back if and only if it was
  // in shortest form.
  lemma ReencodesIffShortest(s: seq<byte>, i: nat)
    requires i < |s| && DecodeOne(s, i).Ok?
    ensures i < DecodeOne(s, i).value.1 <= |s|
    ensures EncodeOne(DecodeOne(s, i).value.0) == Ok(s[i..DecodeOne(s, i).value.1]) <==> ShortestAt(s, i)
  {
    if s[i] < 0x80 {
      assert s[i..i + 1] == [s[i]];
    } else if s[i] < 0xE0 {
      ReencodesTwo(s, i);
    } else if s[i] < 0xF0 {
      ReencodesThree(s, i);
    } else {
      ReencodesFour(s, i);
    }
  }

  lemma ReencodesTwo(s: seq<byte>, i: nat)
    requires i < |s| && 0xC0 <= s[i] < 0xE0 && Continues(s, i + 1)
    ensures EncodeOne((s[i] - 0xC0) * 64 + Six(s, i + 1)) == Ok(s[i..i + 2]) <==> s[i] >= 0xC2
  {
    var q: nat := s[i] - 0xC0;
    Digit(q, Six(s, i + 1));
    assert s[i..i + 2] == [s[i], s[i + 1]];
  }

  lemma ReencodesThree(s: seq<byte>, i: nat)
    requires i < |s| && 0xE0 <= s[i] < 0xF0 && Continues(s, i + 1) && Continues(s, i + 2)
    ensures EncodeOne(((s[i] - 0xE0) * 64 + Six(s, i + 1)) * 64 + Six(s, i + 2)) == Ok(s[i..i + 3])
            <==> (s[i] == 0xE0 ==> s[i + 1] >= 0xA0)
  {
    var q: nat := s[i] - 0xE0;
    Digit(q, Six(s, i + 1));
    Digit(q * 64 + Six(s, i + 1), Six(s, i + 2));
    assert s[i..i + 3] == [s[i], s[i + 1], s[i + 2]];
  }

  lemma ReencodesFour(s: seq<byte>, i: nat)
    requires i < |s| && 0xF0 <= s[i] < 0xF8
    requires Continues(s, i + 1) && Continues(s, i + 2) && Continues(s, i + 3)
    ensures EncodeOne((((s[i] - 0xF0) * 64 + Six(s, i + 1)) * 64 + Six(s, i + 2)) * 64 + Six(s, i + 3)) == Ok(s[i..i + 4])
            <==> ShortestAt(s, i)
  {
    var q: nat := s[i] - 0xF0;
    Digit(q, Six(s, i + 1));
    Digit(q * 64 + Six(s, i + 1), Six(s, i + 2));
    Digit((q * 64 + Six(s, i + 1)) * 64 + Six(s, i + 2), Six(s, i + 3));
    assert s[i..i + 4] == [s[i], s[i + 1], s[i + 2], s[i + 3]];
  }

  // ---------------------------------------------------------------- strings

  function Encode(cps: seq<nat>): Result<seq<byte>, CodecError> {
    if cps == [] then Ok([])
    else
      var rest := Encode(cps[..|cps| - 1]);
      var last := EncodeOne(cps[|cps| - 1]);
      if rest.Err? then rest else if last.Err? then last else Ok(rest.value + last.value)
  }

  function Decode(s: seq<byte>, i: nat): Result<seq<nat>, CodecError>
    requires i <= |s|
    decreases |s| - i
  {
    if i == |s| then Ok([])
    else
      var one := DecodeOne(s, i);
      if one.Err? then Err(one.error)
      else
        DecodeAdvances(s, i);
        var rest := Decode(s, one.value.1);
        if rest.Err? then rest else Ok([one.value.0] + rest.value)
  }

  method EncodeText(cps: seq<nat>) returns (r: Result<seq<byte>, CodecError>)
    ensures r == Encode(cps)
  {
    var out: seq<byte> := [];
    var i := 0;
    assert cps[..0] == [];
    while i < |cps|
      invariant 0 <= i <= |cps| && Encode(cps[..i]) == Ok(out)
    {
      assert cps[..i + 1][..i] == cps[..i];
      var one := EncodeOne(cps[i]);
      if one.Err? {
        EncodeErrStays(cps, i + 1);
        return one;
      }
      out := out + one.value;
      i := i + 1;
    }
    assert cps[..|cps|] == cps;
    return Ok(out);
  }

  lemma {:induction false} EncodeErrStays(cps: seq<nat>, n: nat)
    requires n <= |cps| && Encode(cps[..n]).Err?
    ensures Encode(cps) == Encode(cps[..n])
    decreases |cps|
  {
    if n < |cps| {
      assert cps[..|cps| - 1][..n] == cps[..n];
      EncodeErrStays(cps[..|cps| - 1], n);
    } else {
      assert cps[..n] == cps;
    }
  }

  method DecodeText(s: seq<byte>) returns (r: Result<seq<nat>, CodecError>)
    ensures r == Decode(s, 0)
  {
    hide DecodeOne;
    var out: seq<nat> := [];
    var offset := 0;
    if Decode(s, 0).Ok? {
      assert [] + Decode(s, 0).value == Decode(s, 0).value;
    }
    while offset < |s|
      invariant 0 <= offset <= |s|
      invariant Decode(s, 0) == (var rest := Decode(s, offset); if rest.Err? then rest else Ok(out + rest.value))
      decreases |s| - offset
    {
      DecodeAdvances(s, offset);
      var one := DecodeOne(s, offset);
      if one.Err? {
        return Err(one.error);
      }
      ghost var rest := Decode(s, one.value.1);
      if rest.Ok? {
        assert out + ([one.value.0] + rest.value) == (out + [one.value.0]) + rest.value;
      }
      out := out + [one.value.0];
      offset := one.value.1;
    }
    assert out + [] == out;
    return Ok(out);
  }

  lemma {:induction false} EncodeOk(cps: seq<nat>)
    ensures Encode(cps).Ok? <==> forall i :: 0 <= i < |cps| ==> cps[i] <= 0x10FFFF
  {
    if cps != [] {
      EncodeOk(cps[..|cps| - 1]);
      assert forall i :: 0 <= i < |cps| - 1 ==> cps[..|cps| - 1][i] == cps[i];
    }
  }

  lemma {:induction false} EncodeConcat(a: seq<nat>, b: seq<nat>)
    requires Encode(a).Ok? && Encode(b).Ok?
    ensures Encode(a + b) == Ok(Encode(a).value + Encode(b).value)
    decreases |b|
  {
    if b == [] {
      assert a + b == a;
      assert Encode(a).value + [] == Encode(a).value;
    } else {
      var b0, last := b[..|b| - 1], b[|b| - 1];
      assert (a + b)[..|a + b| - 1] == a + b0;
      EncodeConcat(a, b0);
      var va, vb, one := Encode(a).value, Encode(b0).value, EncodeOne(last).value;
      assert (va + vb) + one == va + (vb + one);
    }
  }

  lemma EncodeCons(cp: nat, rest: seq<nat>)
    requires EncodeOne(cp).Ok? && Encode(rest).Ok?
    ensures Encode([cp] + rest) == Ok(EncodeOne(cp).value + Encode(rest).value)
  {
    assert [cp][..0] == [];
    assert [] + EncodeOne(cp).value == EncodeOne(cp).value;
    EncodeConcat([cp], rest);
  }

  // decode(encode(cps)) == cps for every sequence that can be encoded.
  lemma {:induction false} RoundTrip(cps: seq<nat>)
    requires Encode(cps).Ok?
    ensures Decode(Encode(cps).value, 0) == Ok(cps)
  {
    var s := Encode(cps).value;
    RoundTripFrom(cps, s, 0);
  }

  lemma {:induction false} RoundTripFrom(cps: seq<nat>, s: seq<byte>, i: nat)
    requires Encode(cps).Ok? && i <= |s| && s[i..] == Encode(cps).value
    ensures Decode(s, i) == Ok(cps)
    decreases |cps|
  {
    hide EncodeOne, DecodeOne;
    if cps == [] {
      assert |s[i..]| == 0;
    } else {
      var rest := cps[1..];
      assert cps == [cps[0]] + rest;
      EncodeOk(cps);
      EncodeOk(rest);
      OneOk(cps[0]);
      EncodeCons(cps[0], rest);
      var e := EncodeOne(cps[0]).value;
      var j := i + |e|;
      assert s[i..j] == s[i..][..|e|] == e;
      assert s[j..] == s[i..][|e|..] == Encode(rest).value;
      OneRoundTrip(cps[0], s, i);
      RoundTripFrom(rest, s, j);
    }
  }

  lemma OneOk(cp: nat)
    ensures EncodeOne(cp).Ok? <==> cp <= 0x10FFFF
    ensures EncodeOne(cp).Ok? ==> 1 <= |EncodeOne(cp).value| <= 4
  {
  }

  // Every sequence met while decoding is in shortest form.
  predicate Shortest(s: seq<byte>, i: nat)
    requires i <= |s|
    decreases |s| - i
  {
    if i == |s| then true
    else
      DecodeAdvances(s, i);
      DecodeOne(s, i).Ok? && ShortestAt(s, i) && Shortest(s, DecodeOne(s, i).value.1)
  }

  // A text that decodes comes back from re-encoding if and only if it is in
  // shortest form.
  lemma {:induction false} TextReencodesIffShortest(s: seq<byte>, i: nat)
    requires i <= |s| && Decode(s, i).Ok?
    ensures Encode(Decode(s, i).value) == Ok(s[i..]) <==> Shortest(s, i)
    decreases |s| - i
  {
    hide DecodeOne, EncodeOne, ShortestAt;
    if i < |s| {
      DecodeAdvances(s, i);
      var (cp, j) := DecodeOne(s, i).value;
      var rest := Decode(s, j).value;
      TextReencodesIffShortest(s, j);
      ReencodesIffShortest(s, i);
      ReencodeSplit(cp, rest, s, i, j);
    } else {
      assert s[i..] == [];
    }
  }

  // Re-encoding yields s[i..] only if it does so code point by code point.
  lemma ReencodeSplit(cp: nat, rest: seq<nat>, s: seq<byte>, i: nat, j: nat)
    requires i < j <= |s| && DecodeOne(s, i) == Ok((cp, j))
    requires Decode(s, j) == Ok(rest)
    ensures Encode([cp] + rest) == Ok(s[i..]) <==> EncodeOne(cp) == Ok(s[i..j]) && Encode(rest) == Ok(s[j..])
  {
    hide DecodeOne, EncodeOne;
    EncodeOk([cp] + rest);
    EncodeOk(rest);
    OneOk(cp);
    assert ([cp] + rest)[0] == cp;
    if EncodeOne(cp).Ok? && Encode(rest).Ok? {
      EncodeCons(cp, rest);
      var e, r := EncodeOne(cp).value, Encode(rest).value;
      if e + r == s[i..] {
        assert s[i..][..|e|] == e && i + |e| <= |s|;
        assert s[i..i + |e|] == e;
        OneRoundTrip(cp, s, i);
        assert j == i + |e|;
        assert r == s[i..][|e|..] == s[j..];
      }
      assert s[i..j] + s[j..] == s[i..];
    } else {
      forall k | 0 <= k < |rest| && Encode([cp] + rest).Ok? ensures rest[k] <= 0x10FFFF {
        assert ([cp] + rest)[k + 1] == rest[k];
      }
    }
  }
}
