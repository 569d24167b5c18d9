/**
 The byte-to-code-point alphabet of byte-level BPE: printable bytes stand for
 themselves, the others for code points from 256 on, in order.
 */
module ByteAlphabet {
  import opened Wrappers
  import opened Bytes
  import opened Utf8

  predicate Printable(b: nat) {
    0x21 <= b <= 0x7E || 0xA1 <= b <= 0xAC || 0xAE <= b <= 0xFF
  }

  // How many bytes below b are not printable.
  function Hidden(b: nat): (n: nat)
    ensures n <= b
  {
    if b == 0 then 0 else Hidden(b - 1) + if Printable(b - 1) then 0 else 1
  }

  function CptOf(b: byte): (cp: nat)
    ensures cp < 512
  {
    if Printable(b) then b else 256 + Hidden(b)
  }

  function Symbol(b: byte): (s: seq<byte>)
    ensures EncodeOne(CptOf(b)) == Ok(s)
  {
    EncodeOne(CptOf(b)).value
  }

  // Control characters, the two spaces and the soft hyphen.
  predicate Invisible(cp: nat) {
    cp <= 0x20 || 0x7F <= cp <= 0xA0 || cp == 0xAD
  }

  lemma {:induction false} HiddenIs(b: nat)
    requires b <= 0x100
    ensures Hidden(b) == if b <= 0x21 then b else if b <= 0x7F then 0x21
                         else if b <= 0xA1 then b - 0x5E else if b <= 0xAD then 0x43 else 0x44
  {
    if b > 0 {
      HiddenIs(b - 1);
    }
  }

  // No byte stands for an invisible character; every other byte stands for
  // itself, and the invisible ones for U+0100 to U+0143 in order, the space for
  // U+0120.
  lemma AlphabetIs(b: byte)
    ensures !Invisible(CptOf(b))
    ensures CptOf(b) == if !Invisible(b) then b as nat else if b <= 0x20 then 0x100 + b
                        else if b <= 0xA0 then 0xA2 + b else 0x143
  {
    HiddenIs(b);
  }

  lemma {:induction false} HiddenGrows(a: nat, b: nat)
    requires a < b && !Printable(a)
    ensures Hidden(a) < Hidden(b)
    decreases b
  {
    if a + 1 < b {
      HiddenGrows(a, b - 1);
    }
  }

  // Different bytes get different code points, hence different strings.
  lemma CptInjective(a: byte, b: byte)
    requires a != b
    ensures CptOf(a) != CptOf(b)
  {
    if !Printable(a) && !Printable(b) {
      HiddenGrows(if a < b then a else b, if a < b then b else a);
    }
  }

  lemma EncodingInjective(x: nat, y: nat)
    requires EncodeOne(x).Ok? && EncodeOne(y).Ok? && x != y
    ensures EncodeOne(x) != EncodeOne(y)
  {
    var s := EncodeOne(x).value;
    OneOk(x);
    assert s[0..0 + |s|] == s;
    OneRoundTrip(x, s, 0);
    if EncodeOne(y) == EncodeOne(x) {
      OneRoundTrip(y, s, 0);
    }
  }

  lemma SymbolInjective(a: byte, b: byte)
    ensures Symbol(a) == Symbol(b) <==> a == b
  {
    if a != b {
      CptInjective(a, b);
      EncodingInjective(CptOf(a), CptOf(b));
    }
  }

  // ---------------------------------------------------------------- the two tables

  // One of the three ranges of bytes that stand for themselves.
  method AddRange(m0: map<byte, seq<byte>>, lo: nat, hi: nat) returns (m: map<byte, seq<byte>>)
    requires lo <= hi <= 0xFF && forall b: byte :: lo <= b <= hi ==> Printable(b)
    requires forall b :: b in m0 ==> m0[b] == Symbol(b)
    ensures forall b: byte :: b in m <==> b in m0 || lo <= b <= hi
    ensures forall b :: b in m ==> m[b] == Symbol(b)
  {
    hide EncodeOne, Printable;
    m := m0;
    var ch := lo;
    while ch <= hi
      invariant lo <= ch <= hi + 1
      invariant forall b: byte :: b in m <==> b in m0 || lo <= b < ch
      invariant forall b :: b in m ==> m[b] == Symbol(b)
    {
      OneOk(ch);
      m := m[ch as byte := EncodeOne(ch).value];
      ch := ch + 1;
    }
  }

  method ByteToUtf8Map() returns (m: map<byte, seq<byte>>)
    ensures forall b: byte :: b in m && m[b] == Symbol(b)
  {
    hide EncodeOne, Symbol;
    m := AddRange(map[], 0x21, 0x7E);
    m := AddRange(m, 0xA1, 0xAC);
    m := AddRange(m, 0xAE, 0xFF);
    m := AddOthers(m);
  }

  // The remaining bytes take the next code points from 256 on.
  method AddOthers(m0: map<byte, seq<byte>>) returns (m: map<byte, seq<byte>>)
    requires forall b: byte :: b in m0 <==> Printable(b)
    requires forall b :: b in m0 ==> m0[b] == Symbol(b)
    ensures forall b: byte :: b in m && m[b] == Symbol(b)
  {
    hide EncodeOne, Symbol, Printable, Hidden;
    m := m0;
    var n: nat := 0;
    var ch: nat := 0;
    HiddenStep(0);
    while ch < 256
      invariant 0 <= ch <= 256 && n == Hidden(ch)
      invariant forall b: byte :: b in m <==> Printable(b) || b < ch
      invariant forall b :: b in m ==> m[b] == Symbol(b)
    {
      var c: byte := ch;
      HiddenStep(ch);
      if c !in m {
        HiddenSymbol(c);
        m := m[c := EncodeOne(256 + n).value];
        n := n + 1;
      }
      ch := ch + 1;
    }
  }

  lemma HiddenSymbol(b: byte)
    requires !Printable(b)
    ensures EncodeOne(256 + Hidden(b)) == Ok(Symbol(b))
  {
    hide EncodeOne, Hidden;
  }

  lemma HiddenStep(b: nat)
    ensures Hidden(0) == 0
    ensures Hidden(b + 1) == Hidden(b) + if Printable(b) then 0 else 1
  {
  }

  // The table holds exactly the symbols of the bytes in p.
  ghost predicate Covers(m: map<seq<byte>, byte>, p: byte -> bool) {
    && (forall b: byte :: p(b) ==> Symbol(b) in m && m[Symbol(b)] == b)
    && (forall k :: k in m ==> p(m[k]) && k == Symbol(m[k]))
  }

  lemma CoversOne(m: map<seq<byte>, byte>, p: byte -> bool, q: byte -> bool, c: byte)
    requires Covers(m, p)
    requires forall b: byte :: q(b) <==> p(b) || b == c
    ensures Covers(m[Symbol(c) := c], q)
  {
    var m1 := m[Symbol(c) := c];
    forall b: byte | q(b) ensures Symbol(b) in m1 && m1[Symbol(b)] == b {
      SymbolInjective(b, c);
    }
  }

  method Utf8ToByteMap() returns (m: map<seq<byte>, byte>)
    ensures forall b: byte :: Symbol(b) in m && m[Symbol(b)] == b
    ensures forall k :: k in m ==> k == Symbol(m[k])
  {
    hide Symbol, Covers;
    m := map[];
    NothingCovered();
    var ch: nat := 0x21;
    while ch <= 0x7E
      invariant 0x21 <= ch <= 0x7F
      invariant Covers(m, (b: byte) => 0x21 <= b < ch)
    {
      CoversOne(m, (b: byte) => 0x21 <= b < ch, (b: byte) => 0x21 <= b < ch + 1, ch as byte);
      m := m[EncodeOne(ch).value := ch as byte];
      ch := ch + 1;
    }
    ch := 0xA1;
    SameCover(m, (b: byte) => 0x21 <= b < 0x7F, (b: byte) => 0x21 <= b <= 0x7E || 0xA1 <= b < 0xA1);
    while ch <= 0xAC
      invariant 0xA1 <= ch <= 0xAD
      invariant Covers(m, (b: byte) => 0x21 <= b <= 0x7E || 0xA1 <= b < ch)
    {
      CoversOne(m, (b: byte) => 0x21 <= b <= 0x7E || 0xA1 <= b < ch,
                   (b: byte) => 0x21 <= b <= 0x7E || 0xA1 <= b < ch + 1, ch as byte);
      m := m[EncodeOne(ch).value := ch as byte];
      ch := ch + 1;
    }
    ch := 0xAE;
    SameCover(m, (b: byte) => 0x21 <= b <= 0x7E || 0xA1 <= b < 0xAD,
                 (b: byte) => 0x21 <= b <= 0x7E || 0xA1 <= b <= 0xAC || 0xAE <= b < 0xAE);
    while ch <= 0xFF
      invariant 0xAE <= ch <= 0x100
      invariant Covers(m, (b: byte) => 0x21 <= b <= 0x7E || 0xA1 <= b <= 0xAC || 0xAE <= b < ch)
    {
      CoversOne(m, (b: byte) => 0x21 <= b <= 0x7E || 0xA1 <= b <= 0xAC || 0xAE <= b < ch,
                   (b: byte) => 0x21 <= b <= 0x7E || 0xA1 <= b <= 0xAC || 0xAE <= b < ch + 1, ch as byte);
      m := m[EncodeOne(ch).value := ch as byte];
      ch := ch + 1;
    }
    SameCover(m, (b: byte) => 0x21 <= b <= 0x7E || 0xA1 <= b <= 0xAC || 0xAE <= b < 0x100,
                 (b: byte) => Printable(b) || b < 0);
    m := AddHidden(m);
  }

  // Second pass: the bytes whose own encoding is not a key yet.
  method AddHidden(m0: map<seq<byte>, byte>) returns (m: map<seq<byte>, byte>)
    requires Covers(m0, (b: byte) => Printable(b) || b < 0)
    ensures forall b: byte :: Symbol(b) in m && m[Symbol(b)] == b
    ensures forall k :: k in m ==> k == Symbol(m[k])
  {
    hide Covers, Symbol;
    m := m0;
    var n: nat := 0;
    var ch: nat := 0;
    while ch < 256
      invariant 0 <= ch <= 256 && n == Hidden(ch)
      invariant Covers(m, (b: byte) => Printable(b) || b < ch)
    {
      OneOk(ch);
      OwnKey(m, ch, ch as byte);
      if EncodeOne(ch).value !in m {
        CoversOne(m, (b: byte) => Printable(b) || b < ch, (b: byte) => Printable(b) || b < ch + 1, ch as byte);
        OneOk(256 + n);
        assert EncodeOne(256 + n).value == Symbol(ch as byte);
        m := m[EncodeOne(256 + n).value := ch as byte];
        n := n + 1;
      } else {
        SameCover(m, (b: byte) => Printable(b) || b < ch, (b: byte) => Printable(b) || b < ch + 1);
      }
      ch := ch + 1;
    }
    AllCovered(m);
  }

  lemma NothingCovered()
    ensures Covers(map[], (b: byte) => 0x21 <= b < 0x21)
  {
  }

  lemma SameCover(m: map<seq<byte>, byte>, p: byte -> bool, q: byte -> bool)
    requires Covers(m, p)
    requires forall b: byte :: q(b) <==> p(b)
    ensures Covers(m, q)
  {
  }

  // The plain encoding of a byte value is a key exactly for printable bytes.
  lemma OwnKey(m: map<seq<byte>, byte>, ch: nat, c: byte)
    requires ch == c && Covers(m, (b: byte) => Printable(b) || b < ch)
    ensures EncodeOne(ch).Ok?
    ensures EncodeOne(ch).value in m <==> Printable(c)
  {
    if Printable(c) {
      assert EncodeOne(ch).value == Symbol(c);
    } else if EncodeOne(ch).value in m {
      var b := m[EncodeOne(ch).value];
      assert EncodeOne(CptOf(b)) == EncodeOne(ch);
      EncodingInjective2(CptOf(b), ch);
      assert false;
    }
  }

  lemma EncodingInjective2(x: nat, y: nat)
    requires EncodeOne(x).Ok? && EncodeOne(x) == EncodeOne(y)
    ensures x == y
  {
    if x != y {
      EncodingInjective(x, y);
    }
  }

  lemma AllCovered(m: map<seq<byte>, byte>)
    requires Covers(m, (b: byte) => Printable(b) || b < 256)
    ensures forall b: byte :: Symbol(b) in m && m[Symbol(b)] == b
    ensures forall k :: k in m ==> k == Symbol(m[k])
  {
  }

  // ---------------------------------------------------------------- words

  function MapBytes(bytes: seq<byte>): seq<byte> {
    if bytes == [] then [] else MapBytes(bytes[..|bytes| - 1]) + Symbol(bytes[|bytes| - 1])
  }

  // Read a mapped word back: every code point through the inverse table.
  function CptToByte(cp: nat): Option<byte> {
    if Printable(cp) && cp < 256 then Some(cp)
    else if exists b: byte :: !Printable(b) && CptOf(b) == cp
    then (HiddenUnique(cp); var b: byte :| !Printable(b) && CptOf(b) == cp; Some(b))
    else None
  }

  lemma HiddenUnique(cp: nat)
    ensures forall a: byte, b: byte :: CptOf(a) == cp && CptOf(b) == cp ==> a == b
  {
    forall a: byte, b: byte | CptOf(a) == cp && CptOf(b) == cp ensures a == b {
      if a != b {
        CptInjective(a, b);
      }
    }
  }

  lemma ByteBack(b: byte)
    ensures CptToByte(CptOf(b)) == Some(b)
  {
    HiddenUnique(CptOf(b));
  }

  // The table that is built reads exactly what CptToByte reads.
  lemma TableReads(m: map<seq<byte>, byte>, cp: nat)
    requires forall b: byte :: Symbol(b) in m && m[Symbol(b)] == b
    requires forall k :: k in m ==> k == Symbol(m[k])
    requires EncodeOne(cp).Ok?
    ensures EncodeOne(cp).value in m <==> CptToByte(cp).Some?
    ensures CptToByte(cp).Some? ==> m[EncodeOne(cp).value] == CptToByte(cp).value
  {
    hide EncodeOne, Hidden;
    if CptToByte(cp).Some? {
      var b := CptToByte(cp).value;
      assert CptOf(b) == cp;
      assert EncodeOne(cp).value == Symbol(b);
    }
    if EncodeOne(cp).value in m {
      var b := m[EncodeOne(cp).value];
      assert EncodeOne(CptOf(b)) == EncodeOne(cp);
      EncodingInjective2(CptOf(b), cp);
      ByteBack(b);
    }
  }

  function BytesOf(cps: seq<nat>): Option<seq<byte>> {
    if cps == [] then Some([])
    else
      var rest := BytesOf(cps[..|cps| - 1]);
      var last := CptToByte(cps[|cps| - 1]);
      if rest.Some? && last.Some? then Some(rest.value + [last.value]) else None
  }

  // What a mapped word stands for.
  function Unmap(word: seq<byte>): Option<seq<byte>> {
    var cps := Decode(word, 0);
    if cps.Err? then None else BytesOf(cps.value)
  }

  function CptsOf(bytes: seq<byte>): (cps: seq<nat>)
    ensures |cps| == |bytes| && forall i :: 0 <= i < |bytes| ==> cps[i] == CptOf(bytes[i])
  {
    seq(|bytes|, i requires 0 <= i < |bytes| => CptOf(bytes[i]))
  }

  lemma {:induction false} MappedIsEncoded(bytes: seq<byte>)
    ensures Encode(CptsOf(bytes)) == Ok(MapBytes(bytes))
  {
    if bytes != [] {
      var front := bytes[..|bytes| - 1];
      MappedIsEncoded(front);
      assert CptsOf(bytes)[..|bytes| - 1] == CptsOf(front);
    }
  }

  lemma {:induction false} CptsBack(bytes: seq<byte>)
    ensures BytesOf(CptsOf(bytes)) == Some(bytes)
  {
    if bytes != [] {
      var front := bytes[..|bytes| - 1];
      CptsBack(front);
      assert CptsOf(bytes)[..|bytes| - 1] == CptsOf(front);
      ByteBack(bytes[|bytes| - 1]);
      assert front + [bytes[|bytes| - 1]] == bytes;
    }
  }

  // Mapping a byte string and reading it back is the identity.
  lemma UnmapMap(bytes: seq<byte>)
    ensures Unmap(MapBytes(bytes)) == Some(bytes)
  {
    MappedIsEncoded(bytes);
    RoundTrip(CptsOf(bytes));
    CptsBack(bytes);
  }
}
