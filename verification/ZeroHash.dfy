/**
 A block of two tokens whose chained hash, behind nothing, is 0 - the hash of the
 empty prefix.
 */
module ZeroHash {
  import opened Bytes
  import opened Fnv

  const ZERO_BLOCK: seq<int32> := [1404660693, 906528578]

  // ---------------------------------------------------------------- exclusive or by digits

  // Exclusive or works digit by digit in any base that is a power of two.
  lemma {:induction false} XorSplit(q: nat, x: nat, p: nat, b: nat, n: nat)
    requires Power2(n) && x < n && b < n
    ensures Xor(q * n + x, p * n + b) == Xor(q, p) * n + Xor(x, b)
    decreases n
  {
    if n > 1 {
      XorSplit(q, x / 2, p, b / 2, n / 2);
      XorStep(q, x, p, b, n / 2);
    }
  }

  lemma XorStep(q: nat, x: nat, p: nat, b: nat, m: nat)
    requires Xor(q * m + x / 2, p * m + b / 2) == Xor(q, p) * m + Xor(x / 2, b / 2)
    ensures Xor(q * (2 * m) + x, p * (2 * m) + b) == Xor(q, p) * (2 * m) + Xor(x, b)
  {
    hide Xor;
    Twice(q, m);
    Twice(p, m);
    Twice(Xor(q, p), m);
    XorBits(q * m, x, p * m, b, Xor(q, p) * m);
  }

  lemma Twice(q: nat, m: nat)
    ensures q * (2 * m) == 2 * (q * m)
  {}

  // Two numbers that agree with x and b in the last bit.
  lemma XorBits(q: nat, x: nat, p: nat, b: nat, r: nat)
    requires Xor(q + x / 2, p + b / 2) == r + Xor(x / 2, b / 2)
    ensures Xor(2 * q + x, 2 * p + b) == 2 * r + Xor(x, b)
  {
    hide Xor;
    XorHalf(2 * q + x, 2 * p + b);
    XorHalf(x, b);
  }

  lemma XorHalf(a: nat, b: nat)
    ensures Xor(a, b) == (if a % 2 == b % 2 then 0 else 1) + 2 * Xor(a / 2, b / 2)
  {}

  lemma {:induction false} XorZero(a: nat)
    ensures Xor(a, 0) == a
  {
    if a != 0 {
      XorZero(a / 2);
    }
  }

  // Two binary digits of each.
  lemma Pair(a1: nat, a0: nat, b1: nat, b0: nat)
    requires a1 < 2 && a0 < 2 && b1 < 2 && b0 < 2
    ensures Xor(2 * a1 + a0, 2 * b1 + b0) == 2 * Bit(a1, b1) + Bit(a0, b0)
  {
    hide Xor, Bit;
    XorCons(2 * a1 + a0, a1, a0, 2 * b1 + b0, b1, b0);
    XorCons(a1, 0, a1, b1, 0, b1);
    XorZero(0);
  }

  lemma XorCons(a: nat, q: nat, x: nat, c: nat, p: nat, b: nat)
    requires x < 2 && b < 2 && a == 2 * q + x && c == 2 * p + b
    ensures Xor(a, c) == 2 * Xor(q, p) + Bit(x, b)
  {
    hide Xor;
    XorHalf(a, c);
  }

  function Bit(a: nat, b: nat): nat {
    if a == b then 0 else 1
  }

  // One step, with the low byte of the hash and the byte in two digits each.
  lemma StepTo(q: nat, u: nat, v: nat, s: nat, t: nat, h: u64)
    requires u < 16 && v < 16 && s < 16 && t < 16 && 256 * q + 16 * u + v < M
    requires h == (256 * q + 16 * Xor(u, s) + Xor(v, t)) * PRIME % M
    ensures Step(256 * q + 16 * u + v, 16 * s + t) == h
  {
    hide Xor, Power2;
    Powers();
    XorSplit(q, 16 * u + v, 0, 16 * s + t, 256);
    XorSplit(u, v, s, t, 16);
    XorZero(q);
  }

  lemma Powers()
    ensures Power2(4) && Power2(16) && Power2(256)
  {
    assert Power2(1) && Power2(2) && Power2(4) && Power2(8);
    PowerTimes256(1);
  }

  lemma Pairs()
    ensures Xor(0, 0) == 0
    ensures Xor(0, 2) == 2
    ensures Xor(0, 3) == 3
    ensures Xor(1, 0) == 1
    ensures Xor(1, 1) == 0
    ensures Xor(1, 2) == 3
    ensures Xor(1, 3) == 2
    ensures Xor(2, 0) == 2
    ensures Xor(2, 1) == 3
    ensures Xor(2, 2) == 0
    ensures Xor(3, 0) == 3
    ensures Xor(3, 1) == 2
    ensures Xor(3, 2) == 1
    ensures Xor(3, 3) == 0
  {
    hide Xor;
    Pair(0, 0, 0, 0);
    Pair(0, 0, 1, 0);
    Pair(0, 0, 1, 1);
    Pair(0, 1, 0, 0);
    Pair(0, 1, 0, 1);
    Pair(0, 1, 1, 0);
    Pair(0, 1, 1, 1);
    Pair(1, 0, 0, 0);
    Pair(1, 0, 0, 1);
    Pair(1, 0, 1, 0);
    Pair(1, 1, 0, 0);
    Pair(1, 1, 0, 1);
    Pair(1, 1, 1, 0);
    Pair(1, 1, 1, 1);
  }

  lemma Digits()
    ensures Xor(0, 11) == 11
    ensures Xor(1, 2) == 3
    ensures Xor(1, 9) == 8
    ensures Xor(2, 13) == 15
    ensures Xor(3, 3) == 0
    ensures Xor(5, 5) == 0
    ensures Xor(6, 6) == 0
    ensures Xor(8, 3) == 11
    ensures Xor(9, 7) == 14
    ensures Xor(9, 8) == 1
    ensures Xor(10, 8) == 2
    ensures Xor(12, 4) == 8
    ensures Xor(12, 11) == 7
    ensures Xor(13, 6) == 11
    ensures Xor(14, 5) == 11
    ensures Xor(15, 0) == 15
  {
    hide Xor, Power2;
    Powers();
    Pairs();
    XorSplit(0, 0, 2, 3, 4);
    XorSplit(0, 1, 0, 2, 4);
    XorSplit(0, 1, 2, 1, 4);
    XorSplit(0, 2, 3, 1, 4);
    XorSplit(0, 3, 0, 3, 4);
    XorSplit(1, 1, 1, 1, 4);
    XorSplit(1, 2, 1, 2, 4);
    XorSplit(2, 0, 0, 3, 4);
    XorSplit(2, 1, 1, 3, 4);
    XorSplit(2, 1, 2, 0, 4);
    XorSplit(2, 2, 2, 0, 4);
    XorSplit(3, 0, 1, 0, 4);
    XorSplit(3, 0, 2, 3, 4);
    XorSplit(3, 1, 1, 2, 4);
    XorSplit(3, 2, 1, 1, 4);
    XorSplit(3, 3, 0, 0, 4);
  }

  // The fold over the eight bytes, low byte first.
  lemma ZeroSteps()
    ensures Step(Step(Step(Step(Step(Step(Step(Step(14695981039346656037, 213), 107), 185), 83), 66), 135), 8), 54) == 0
  {
    hide Xor, Step;
    Digits();
    StepTo(57406175934947875, 2, 5, 13, 5, 12638376316555694288);
    StepTo(49368657486545680, 13, 0, 6, 11, 784845726696172993);
    StepTo(3065803619906925, 12, 1, 11, 9, 13216362983930266344);
    StepTo(51626417905977602, 14, 8, 5, 3, 8218091972537066433);
    StepTo(32101921767722915, 12, 1, 4, 2, 6551918158621628313);
    StepTo(25593430307115735, 9, 9, 8, 7, 10643398447161640954);
    StepTo(41575775184225159, 15, 10, 0, 8, 54);
    StepTo(0, 3, 6, 3, 6, 0);
  }

  lemma ZeroBytes()
    ensures TokenBytes(1404660693) == [213, 107, 185, 83] && TokenBytes(906528578) == [66, 135, 8, 54]
  {}

  lemma FoldEight(bs: seq<byte>, h: u64)
    requires |bs| == 8
    ensures Fold(bs, h)
         == Step(Step(Step(Step(Step(Step(Step(Step(h, bs[0]), bs[1]), bs[2]), bs[3]), bs[4]), bs[5]), bs[6]), bs[7])
  {
    hide Step;
    FoldLast(bs, 8, h);
    FoldLast(bs, 7, h);
    FoldLast(bs, 6, h);
    FoldLast(bs, 5, h);
    FoldLast(bs, 4, h);
    FoldLast(bs, 3, h);
    FoldLast(bs, 2, h);
    FoldLast(bs, 1, h);
    assert bs[..8] == bs && bs[..0] == [];
  }

  lemma FoldLast(bs: seq<byte>, k: nat, h: u64)
    requires 0 < k <= |bs|
    ensures Fold(bs[..k], h) == Step(Fold(bs[..k - 1], h), bs[k - 1])
  {
    hide Step;
    assert bs[..k][..k - 1] == bs[..k - 1];
  }

  lemma ZeroBlockHashes()
    ensures BlockHash(0, ZERO_BLOCK) == 0
  {
    hide Step, Fold, TokenBytes, Xor64;
    var bs: seq<byte> := [213, 107, 185, 83, 66, 135, 8, 54];
    ZeroBytes();
    TwoTokens(ZERO_BLOCK);
    assert BlockBytes(ZERO_BLOCK) == bs;
    StartIsBasis();
    FoldEight(bs, BASIS);
    ZeroSteps();
  }

  lemma TwoTokens(tokens: seq<int32>)
    requires |tokens| == 2
    ensures BlockBytes(tokens) == TokenBytes(tokens[0]) + TokenBytes(tokens[1])
  {
    hide TokenBytes;
    assert tokens[..1][..0] == [] && tokens[..1] == [tokens[0]];
    assert BlockBytes(tokens[..1]) == BlockBytes(tokens[..1][..0]) + TokenBytes(tokens[0]);
    assert [] + TokenBytes(tokens[0]) == TokenBytes(tokens[0]);
  }

  lemma StartIsBasis()
    ensures Xor64(BASIS, 0) == BASIS
  {
    XorZero(BASIS);
  }
}
