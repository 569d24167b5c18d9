/** The FNV-1a fold on 64 bits, and the chained hash of token blocks. */
module Fnv {
  import opened Bytes

  const M: nat := 0x1_0000_0000_0000_0000
  const PRIME: nat := 1099511628211
  const INVERSE: nat := 14886173955864302971  // PRIME * INVERSE == 1 modulo M
  const BASIS: u64 := 14695981039346656037

  // ---------------------------------------------------------------- exclusive or

  function Xor(a: nat, b: nat): nat {
    if a == 0 && b == 0 then 0
    else (if a % 2 == b % 2 then 0 else 1) + 2 * Xor(a / 2, b / 2)
  }

  lemma {:induction false} XorTwice(a: nat, b: nat)
    ensures Xor(Xor(a, b), b) == a
  {
    if a != 0 || b != 0 {
      XorTwice(a / 2, b / 2);
    }
  }

  // Exclusive or stays below a bound that is a power of two.
  ghost predicate Power2(n: nat) {
    n == 1 || (n > 1 && n % 2 == 0 && Power2(n / 2))
  }

  lemma {:induction false} XorBelow(a: nat, b: nat, n: nat)
    requires Power2(n) && a < n && b < n
    ensures Xor(a, b) < n
    decreases n
  {
    if n > 1 && (a != 0 || b != 0) {
      XorBelow(a / 2, b / 2, n / 2);
    }
  }

  lemma Doubled(n: nat)
    requires Power2(n)
    ensures Power2(2 * n)
  {
  }

  lemma PowerTimes256(n: nat)
    requires Power2(n)
    ensures Power2(256 * n)
  {
    hide Power2;
    Doubled(n);
    Doubled(2 * n);
    Doubled(4 * n);
    Doubled(8 * n);
    Doubled(16 * n);
    Doubled(32 * n);
    Doubled(64 * n);
    Doubled(128 * n);
  }

  lemma MIsPower()
    ensures Power2(M)
  {
    assert Power2(1);
    PowerTimes256(1);
    PowerTimes256(0x100);
    PowerTimes256(0x1_0000);
    PowerTimes256(0x100_0000);
    PowerTimes256(0x1_0000_0000);
    PowerTimes256(0x100_0000_0000);
    PowerTimes256(0x1_0000_0000_0000);
    PowerTimes256(0x100_0000_0000_0000);
  }

  function Xor64(a: u64, b: u64): (r: u64) {
    MIsPower();
    XorBelow(a, b, M);
    Xor(a, b)
  }

  // ---------------------------------------------------------------- one byte

  function Times(h: u64): u64 {
    h * PRIME % M
  }

  function Over(h: u64): u64 {
    h * INVERSE % M
  }

  // Multiplying by the prime is undone by multiplying with its inverse.
  lemma TimesOver(h: u64)
    ensures Over(Times(h)) == h && Times(Over(h)) == h
  {
    assert PRIME * INVERSE == 1 + M * 887285111055;
    InverseStep(h, PRIME, INVERSE);
    InverseStep(h, INVERSE, PRIME);
  }

  lemma InverseStep(h: u64, p: nat, q: nat)
    requires (p == PRIME && q == INVERSE) || (p == INVERSE && q == PRIME)
    ensures (h * p % M) * q % M == h
  {
    var k := h * p / M;
    assert h * p % M == h * p - M * k;
    if p == PRIME {
      assert (h * PRIME - M * k) * INVERSE == h + M * (h * 887285111055 - k * INVERSE);
      Residue(h, h * 887285111055 - k * INVERSE);
    } else {
      assert (h * INVERSE - M * k) * PRIME == h + M * (h * 887285111055 - k * PRIME);
      Residue(h, h * 887285111055 - k * PRIME);
    }
  }

  lemma Residue(h: u64, z: int)
    ensures (h + M * z) % M == h
  {
  }

  function Step(h: u64, b: byte): u64 {
    Times(Xor64(h, b))
  }

  function Unstep(h: u64, b: byte): u64 {
    Xor64(Over(h), b)
  }

  lemma StepBijective(h: u64, b: byte)
    ensures Unstep(Step(h, b), b) == h && Step(Unstep(h, b), b) == h
  {
    TimesOver(Xor64(h, b));
    XorTwice(h, b);
    TimesOver(h);
    XorTwice(Over(h), b);
  }

  // ---------------------------------------------------------------- the fold

  function Fold(bytes: seq<byte>, h: u64): u64 {
    if bytes == [] then h else Step(Fold(bytes[..|bytes| - 1], h), bytes[|bytes| - 1])
  }

  function Unfold(bytes: seq<byte>, h: u64): u64
    decreases |bytes|
  {
    if bytes == [] then h else Unfold(bytes[..|bytes| - 1], Unstep(h, bytes[|bytes| - 1]))
  }

  // For every byte string the fold is a bijection of its starting hash.
  lemma {:induction false} FoldBijective(bytes: seq<byte>, h: u64)
    ensures Unfold(bytes, Fold(bytes, h)) == h
    ensures Fold(bytes, Unfold(bytes, h)) == h
    decreases |bytes|
  {
    hide Step, Unstep;
    if bytes != [] {
      var front, b := bytes[..|bytes| - 1], bytes[|bytes| - 1];
      StepBijective(Fold(front, h), b);
      FoldBijective(front, h);
      StepBijective(h, b);
      FoldBijective(front, Unstep(h, b));
    }
  }

  method Fnv1a(data: seq<byte>, start: u64) returns (h: u64)
    ensures h == Fold(data, start)
  {
    hide Step;
    h := start;
    var i := 0;
    assert data[..0] == [];
    while i < |data|
      invariant 0 <= i <= |data| && h == Fold(data[..i], start)
    {
      assert data[..i + 1][..i] == data[..i];
      h := Step(h, data[i]);
      i := i + 1;
    }
    assert data[..|data|] == data;
  }

  // ---------------------------------------------------------------- token blocks

  // The low 32 bits of a token id, least significant byte first.
  function TokenBytes(t: int32): (bs: seq<byte>)
    ensures |bs| == 4
  {
    var u := if t < 0 then t + 0x1_0000_0000 else t;
    [u % 0x100, u / 0x100 % 0x100, u / 0x1_0000 % 0x100, u / 0x100_0000 % 0x100]
  }

  function BlockBytes(tokens: seq<int32>): seq<byte> {
    if tokens == [] then [] else BlockBytes(tokens[..|tokens| - 1]) + TokenBytes(tokens[|tokens| - 1])
  }

  function BlockHash(prev: u64, tokens: seq<int32>): u64 {
    Fold(BlockBytes(tokens), Xor64(BASIS, prev))
  }

  method ComputeBlockHash(prev: u64, tokens: seq<int32>) returns (h: u64)
    ensures h == BlockHash(prev, tokens)
  {
    hide Step, TokenBytes, Xor64;
    h := Xor64(BASIS, prev);
    var i := 0;
    assert tokens[..0] == [];
    while i < |tokens|
      invariant 0 <= i <= |tokens|
      invariant h == Fold(BlockBytes(tokens[..i]), Xor64(BASIS, prev))
    {
      assert tokens[..i + 1][..i] == tokens[..i];
      var bytes := TokenBytes(tokens[i]);
      ghost var h0, front := h, BlockBytes(tokens[..i]);
      var k := 0;
      assert front + bytes[..0] == front;
      while k < 4
        invariant 0 <= k <= 4
        invariant h == Fold(front + bytes[..k], Xor64(BASIS, prev))
      {
        FoldOneMore(front, bytes, k, Xor64(BASIS, prev));
        h := Step(h, bytes[k]);
        k := k + 1;
      }
      assert front + bytes[..4] == BlockBytes(tokens[..i + 1]);
      i := i + 1;
    }
    assert tokens[..|tokens|] == tokens;
  }

  lemma FoldOneMore(front: seq<byte>, bytes: seq<byte>, k: nat, h: u64)
    requires k < |bytes|
    ensures Fold(front + bytes[..k + 1], h) == Step(Fold(front + bytes[..k], h), bytes[k])
  {
    hide Step;
    var s := front + bytes[..k + 1];
    assert s[..|s| - 1] == front + bytes[..k];
  }

  // Identical blocks behind different prefixes never share a hash.
  lemma BlockHashInjective(p: u64, q: u64, tokens: seq<int32>)
    ensures BlockHash(p, tokens) == BlockHash(q, tokens) <==> p == q
  {
    hide Fold, Unfold, Xor64;
    FoldBijective(BlockBytes(tokens), Xor64(BASIS, p));
    FoldBijective(BlockBytes(tokens), Xor64(BASIS, q));
    XorInjective(BASIS, p, q);
  }

  lemma XorInjective(a: u64, p: u64, q: u64)
    ensures Xor64(a, p) == Xor64(a, q) <==> p == q
  {
    XorSymmetric(a, p);
    XorSymmetric(a, q);
    XorTwice(p, a);
    XorTwice(q, a);
  }

  lemma {:induction false} XorSymmetric(a: nat, b: nat)
    ensures Xor(a, b) == Xor(b, a)
  {
    if a != 0 || b != 0 {
      XorSymmetric(a / 2, b / 2);
    }
  }
}
