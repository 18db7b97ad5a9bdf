/** The digest of "abc" from appendix A.5 of RFC 1321, operation by operation: the padded block, the state after every
    four of the 64 operations and the bytes of the result. It ties the word order, the shifts, the sine table and the
    padding to the standard itself. */
module Md5Known {
  import opened Prelude
  import opened Md5Transform
  import opened Md5

  /** The characters of "abc". */
  const ABC: seq<byte> := [0x61, 0x62, 0x63]

  /** The words of the one padded block. */
  const BLOCK: seq<bv32> := [0x80636261, 0, 0, 0, 0, 0, 0, 0, 0, 0, 0, 0, 0, 0, 24, 0]

  const ANSWER := Quad(0x310ade8f, 0xc08226b3, 0xe484b9d8, 0x624d8cb2)

  lemma FourMore(n: nat, q0: Quad, q1: Quad, q2: Quad, q3: Quad, q4: Quad)
    requires n + 4 <= 64 && Steps(n, INIT, BLOCK) == q0 && Step(n, q0, BLOCK) == q1 && Step(n + 1, q1, BLOCK) == q2
    requires Step(n + 2, q2, BLOCK) == q3 && Step(n + 3, q3, BLOCK) == q4
    ensures Steps(n + 4, INIT, BLOCK) == q4
  {
    hide Step;
    FourSteps(n, INIT, BLOCK);
  }

  /** The operation of each round. */
  function Operation(round: nat, v: Quad, w: bv32, s: nat, t: bv32): bv32
    requires round < 4 && 0 < s < 32
  {
    match round
    case 0 => FF(v.a, v.b, v.c, v.d, w, s, t)
    case 1 => GG(v.a, v.b, v.c, v.d, w, s, t)
    case 2 => HH(v.a, v.b, v.c, v.d, w, s, t)
    case _ => II(v.a, v.b, v.c, v.d, w, s, t)
  }

  lemma StepIs(i: nat, v: Quad, w: bv32, s: nat, t: bv32, r: bv32)
    requires i < 64 && 0 < s < 32 && BLOCK[WordIndex(i)] == w && Shift(i) == s && Sine(i) == t
    requires Operation(i / 16, v, w, s, t) == r
    ensures Step(i, v, BLOCK) == Quad(v.d, r, v.b, v.c)
  {
    hide FF, GG, HH, II, Sine, Shift, WordIndex;
  }

  lemma Values0()
    ensures FF(0x67452301, 0xefcdab89, 0x98badcfe, 0x10325476, 0x80636261, 7, 0xd76aa478) == 0xd6d117b4
    ensures FF(0x10325476, 0xd6d117b4, 0xefcdab89, 0x98badcfe, 0x00000000, 12, 0xe8c7b756) == 0x344a8432
    ensures FF(0x98badcfe, 0x344a8432, 0xd6d117b4, 0xefcdab89, 0x00000000, 17, 0x242070db) == 0x2f6fbd72
    ensures FF(0xefcdab89, 0x2f6fbd72, 0x344a8432, 0xd6d117b4, 0x00000000, 22, 0xc1bdceee) == 0x7ad956f2
  {
  }

  lemma Tables0()
    ensures WordIndex(0) == 0 && BLOCK[0] == 0x80636261 && Shift(0) == 7 && Sine(0) == 0xd76aa478
    ensures WordIndex(1) == 1 && BLOCK[1] == 0x00000000 && Shift(1) == 12 && Sine(1) == 0xe8c7b756
    ensures WordIndex(2) == 2 && BLOCK[2] == 0x00000000 && Shift(2) == 17 && Sine(2) == 0x242070db
    ensures WordIndex(3) == 3 && BLOCK[3] == 0x00000000 && Shift(3) == 22 && Sine(3) == 0xc1bdceee
  {
  }

  lemma After4()
    ensures Steps(4, INIT, BLOCK) == Quad(0xd6d117b4, 0x7ad956f2, 0x2f6fbd72, 0x344a8432)
  {
    hide FF, GG, HH, II, WordIndex, Shift, Sine, Step, Steps;
    NoOperations(); Values0(); Tables0();
    StepIs(0, Quad(0x67452301, 0xefcdab89, 0x98badcfe, 0x10325476), 0x80636261, 7, 0xd76aa478, 0xd6d117b4);
    StepIs(1, Quad(0x10325476, 0xd6d117b4, 0xefcdab89, 0x98badcfe), 0x00000000, 12, 0xe8c7b756, 0x344a8432);
    StepIs(2, Quad(0x98badcfe, 0x344a8432, 0xd6d117b4, 0xefcdab89), 0x00000000, 17, 0x242070db, 0x2f6fbd72);
    StepIs(3, Quad(0xefcdab89, 0x2f6fbd72, 0x344a8432, 0xd6d117b4), 0x00000000, 22, 0xc1bdceee, 0x7ad956f2);
    FourMore(0, Quad(0x67452301, 0xefcdab89, 0x98badcfe, 0x10325476),
             Quad(0x10325476, 0xd6d117b4, 0xefcdab89, 0x98badcfe),
             Quad(0x98badcfe, 0x344a8432, 0xd6d117b4, 0xefcdab89),
             Quad(0xefcdab89, 0x2f6fbd72, 0x344a8432, 0xd6d117b4),
             Quad(0xd6d117b4, 0x7ad956f2, 0x2f6fbd72, 0x344a8432));
  }

  lemma Values4()
    ensures FF(0xd6d117b4, 0x7ad956f2, 0x2f6fbd72, 0x344a8432, 0x00000000, 7, 0xf57c0faf) == 0xc73741ef
    ensures FF(0x344a8432, 0xc73741ef, 0x7ad956f2, 0x2f6fbd72, 0x00000000, 12, 0x4787c62a) == 0x8bac3051
    ensures FF(0x2f6fbd72, 0x8bac3051, 0xc73741ef, 0x7ad956f2, 0x00000000, 17, 0xa8304613) == 0x207dc67b
    ensures FF(0x7ad956f2, 0x207dc67b, 0x8bac3051, 0xc73741ef, 0x00000000, 22, 0xfd469501) == 0x928d99f6
  {
  }

  lemma Tables4()
    ensures WordIndex(4) == 4 && BLOCK[4] == 0x00000000 && Shift(4) == 7 && Sine(4) == 0xf57c0faf
    ensures WordIndex(5) == 5 && BLOCK[5] == 0x00000000 && Shift(5) == 12 && Sine(5) == 0x4787c62a
    ensures WordIndex(6) == 6 && BLOCK[6] == 0x00000000 && Shift(6) == 17 && Sine(6) == 0xa8304613
    ensures WordIndex(7) == 7 && BLOCK[7] == 0x00000000 && Shift(7) == 22 && Sine(7) == 0xfd469501
  {
  }

  lemma After8()
    ensures Steps(8, INIT, BLOCK) == Quad(0xc73741ef, 0x928d99f6, 0x207dc67b, 0x8bac3051)
  {
    hide FF, GG, HH, II, WordIndex, Shift, Sine, Step, Steps;
    After4(); Values4(); Tables4();
    StepIs(4, Quad(0xd6d117b4, 0x7ad956f2, 0x2f6fbd72, 0x344a8432), 0x00000000, 7, 0xf57c0faf, 0xc73741ef);
    StepIs(5, Quad(0x344a8432, 0xc73741ef, 0x7ad956f2, 0x2f6fbd72), 0x00000000, 12, 0x4787c62a, 0x8bac3051);
    StepIs(6, Quad(0x2f6fbd72, 0x8bac3051, 0xc73741ef, 0x7ad956f2), 0x00000000, 17, 0xa8304613, 0x207dc67b);
    StepIs(7, Quad(0x7ad956f2, 0x207dc67b, 0x8bac3051, 0xc73741ef), 0x00000000, 22, 0xfd469501, 0x928d99f6);
    FourMore(4, Quad(0xd6d117b4, 0x7ad956f2, 0x2f6fbd72, 0x344a8432),
             Quad(0x344a8432, 0xc73741ef, 0x7ad956f2, 0x2f6fbd72),
             Quad(0x2f6fbd72, 0x8bac3051, 0xc73741ef, 0x7ad956f2),
             Quad(0x7ad956f2, 0x207dc67b, 0x8bac3051, 0xc73741ef),
             Quad(0xc73741ef, 0x928d99f6, 0x207dc67b, 0x8bac3051));
  }

  lemma Values8()
    ensures FF(0xc73741ef, 0x928d99f6, 0x207dc67b, 0x8bac3051, 0x00000000, 7, 0x698098d8) == 0x854b3712
    ensures FF(0x8bac3051, 0x854b3712, 0x928d99f6, 0x207dc67b, 0x00000000, 12, 0x8b44f7af) == 0x74e2f284
    ensures FF(0x207dc67b, 0x74e2f284, 0x854b3712, 0x928d99f6, 0x00000000, 17, 0xffff5bb1) == 0x3020401c
    ensures FF(0x928d99f6, 0x3020401c, 0x74e2f284, 0x854b3712, 0x00000000, 22, 0x895cd7be) == 0x5ed49596
  {
  }

  lemma Tables8()
    ensures WordIndex(8) == 8 && BLOCK[8] == 0x00000000 && Shift(8) == 7 && Sine(8) == 0x698098d8
    ensures WordIndex(9) == 9 && BLOCK[9] == 0x00000000 && Shift(9) == 12 && Sine(9) == 0x8b44f7af
    ensures WordIndex(10) == 10 && BLOCK[10] == 0x00000000 && Shift(10) == 17 && Sine(10) == 0xffff5bb1
    ensures WordIndex(11) == 11 && BLOCK[11] == 0x00000000 && Shift(11) == 22 && Sine(11) == 0x895cd7be
  {
  }

  lemma After12()
    ensures Steps(12, INIT, BLOCK) == Quad(0x854b3712, 0x5ed49596, 0x3020401c, 0x74e2f284)
  {
    hide FF, GG, HH, II, WordIndex, Shift, Sine, Step, Steps;
    After8(); Values8(); Tables8();
    StepIs(8, Quad(0xc73741ef, 0x928d99f6, 0x207dc67b, 0x8bac3051), 0x00000000, 7, 0x698098d8, 0x854b3712);
    StepIs(9, Quad(0x8bac3051, 0x854b3712, 0x928d99f6, 0x207dc67b), 0x00000000, 12, 0x8b44f7af, 0x74e2f284);
    StepIs(10, Quad(0x207dc67b, 0x74e2f284, 0x854b3712, 0x928d99f6), 0x00000000, 17, 0xffff5bb1, 0x3020401c);
    StepIs(11, Quad(0x928d99f6, 0x3020401c, 0x74e2f284, 0x854b3712), 0x00000000, 22, 0x895cd7be, 0x5ed49596);
    FourMore(8, Quad(0xc73741ef, 0x928d99f6, 0x207dc67b, 0x8bac3051),
             Quad(0x8bac3051, 0x854b3712, 0x928d99f6, 0x207dc67b),
             Quad(0x207dc67b, 0x74e2f284, 0x854b3712, 0x928d99f6),
             Quad(0x928d99f6, 0x3020401c, 0x74e2f284, 0x854b3712),
             Quad(0x854b3712, 0x5ed49596, 0x3020401c, 0x74e2f284));
  }

  lemma Values12()
    ensures FF(0x854b3712, 0x5ed49596, 0x3020401c, 0x74e2f284, 0x00000000, 7, 0x6b901122) == 0xdda9b9a6
    ensures FF(0x74e2f284, 0xdda9b9a6, 0x5ed49596, 0x3020401c, 0x00000000, 12, 0xfd987193) == 0xa1051895
    ensures FF(0x3020401c, 0xa1051895, 0xdda9b9a6, 0x5ed49596, 0x00000018, 17, 0xa679438e) == 0xe396856b
    ensures FF(0x5ed49596, 0xe396856b, 0xa1051895, 0xdda9b9a6, 0x00000000, 22, 0x49b40821) == 0x72aff2e0
  {
  }

  lemma Tables12()
    ensures WordIndex(12) == 12 && BLOCK[12] == 0x00000000 && Shift(12) == 7 && Sine(12) == 0x6b901122
    ensures WordIndex(13) == 13 && BLOCK[13] == 0x00000000 && Shift(13) == 12 && Sine(13) == 0xfd987193
    ensures WordIndex(14) == 14 && BLOCK[14] == 0x00000018 && Shift(14) == 17 && Sine(14) == 0xa679438e
    ensures WordIndex(15) == 15 && BLOCK[15] == 0x00000000 && Shift(15) == 22 && Sine(15) == 0x49b40821
  {
  }

  lemma After16()
    ensures Steps(16, INIT, BLOCK) == Quad(0xdda9b9a6, 0x72aff2e0, 0xe396856b, 0xa1051895)
  {
    hide FF, GG, HH, II, WordIndex, Shift, Sine, Step, Steps;
    After12(); Values12(); Tables12();
    StepIs(12, Quad(0x854b3712, 0x5ed49596, 0x3020401c, 0x74e2f284), 0x00000000, 7, 0x6b901122, 0xdda9b9a6);
    StepIs(13, Quad(0x74e2f284, 0xdda9b9a6, 0x5ed49596, 0x3020401c), 0x00000000, 12, 0xfd987193, 0xa1051895);
    StepIs(14, Quad(0x3020401c, 0xa1051895, 0xdda9b9a6, 0x5ed49596), 0x00000018, 17, 0xa679438e, 0xe396856b);
    StepIs(15, Quad(0x5ed49596, 0xe396856b, 0xa1051895, 0xdda9b9a6), 0x00000000, 22, 0x49b40821, 0x72aff2e0);
    FourMore(12, Quad(0x854b3712, 0x5ed49596, 0x3020401c, 0x74e2f284),
             Quad(0x74e2f284, 0xdda9b9a6, 0x5ed49596, 0x3020401c),
             Quad(0x3020401c, 0xa1051895, 0xdda9b9a6, 0x5ed49596),
             Quad(0x5ed49596, 0xe396856b, 0xa1051895, 0xdda9b9a6),
             Quad(0xdda9b9a6, 0x72aff2e0, 0xe396856b, 0xa1051895));
  }

  lemma Values16()
    ensures GG(0xdda9b9a6, 0x72aff2e0, 0xe396856b, 0xa1051895, 0x00000000, 5, 0xf61e2562) == 0x3e9e9126
    ensures GG(0xa1051895, 0x3e9e9126, 0x72aff2e0, 0xe396856b, 0x00000000, 9, 0xc040b340) == 0x4a1d804e
    ensures GG(0xe396856b, 0x4a1d804e, 0x3e9e9126, 0x72aff2e0, 0x00000000, 14, 0x265e5a51) == 0xe25e1652
    ensures GG(0x72aff2e0, 0xe25e1652, 0x4a1d804e, 0x3e9e9126, 0x80636261, 20, 0xe9b6c7aa) == 0xb5b204e4
  {
  }

  lemma Tables16()
    ensures WordIndex(16) == 1 && BLOCK[1] == 0x00000000 && Shift(16) == 5 && Sine(16) == 0xf61e2562
    ensures WordIndex(17) == 6 && BLOCK[6] == 0x00000000 && Shift(17) == 9 && Sine(17) == 0xc040b340
    ensures WordIndex(18) == 11 && BLOCK[11] == 0x00000000 && Shift(18) == 14 && Sine(18) == 0x265e5a51
    ensures WordIndex(19) == 0 && BLOCK[0] == 0x80636261 && Shift(19) == 20 && Sine(19) == 0xe9b6c7aa
  {
  }

  lemma After20()
    ensures Steps(20, INIT, BLOCK) == Quad(0x3e9e9126, 0xb5b204e4, 0xe25e1652, 0x4a1d804e)
  {
    hide FF, GG, HH, II, WordIndex, Shift, Sine, Step, Steps;
    After16(); Values16(); Tables16();
    StepIs(16, Quad(0xdda9b9a6, 0x72aff2e0, 0xe396856b, 0xa1051895), 0x00000000, 5, 0xf61e2562, 0x3e9e9126);
    StepIs(17, Quad(0xa1051895, 0x3e9e9126, 0x72aff2e0, 0xe396856b), 0x00000000, 9, 0xc040b340, 0x4a1d804e);
    StepIs(18, Quad(0xe396856b, 0x4a1d804e, 0x3e9e9126, 0x72aff2e0), 0x00000000, 14, 0x265e5a51, 0xe25e1652);
    StepIs(19, Quad(0x72aff2e0, 0xe25e1652, 0x4a1d804e, 0x3e9e9126), 0x80636261, 20, 0xe9b6c7aa, 0xb5b204e4);
    FourMore(16, Quad(0xdda9b9a6, 0x72aff2e0, 0xe396856b, 0xa1051895),
             Quad(0xa1051895, 0x3e9e9126, 0x72aff2e0, 0xe396856b),
             Quad(0xe396856b, 0x4a1d804e, 0x3e9e9126, 0x72aff2e0),
             Quad(0x72aff2e0, 0xe25e1652, 0x4a1d804e, 0x3e9e9126),
             Quad(0x3e9e9126, 0xb5b204e4, 0xe25e1652, 0x4a1d804e));
  }

  lemma Values20()
    ensures GG(0x3e9e9126, 0xb5b204e4, 0xe25e1652, 0x4a1d804e, 0x00000000, 5, 0xd62f105d) == 0x59a8ffda
    ensures GG(0x4a1d804e, 0x59a8ffda, 0xb5b204e4, 0xe25e1652, 0x00000000, 9, 0x02441453) == 0x6d002f1e
    ensures GG(0xe25e1652, 0x6d002f1e, 0x59a8ffda, 0xb5b204e4, 0x00000000, 14, 0xd8a1e681) == 0xabfc7920
    ensures GG(0xb5b204e4, 0xabfc7920, 0x6d002f1e, 0x59a8ffda, 0x00000000, 20, 0xe7d3fbc8) == 0x47092c07
  {
  }

  lemma Tables20()
    ensures WordIndex(20) == 5 && BLOCK[5] == 0x00000000 && Shift(20) == 5 && Sine(20) == 0xd62f105d
    ensures WordIndex(21) == 10 && BLOCK[10] == 0x00000000 && Shift(21) == 9 && Sine(21) == 0x02441453
    ensures WordIndex(22) == 15 && BLOCK[15] == 0x00000000 && Shift(22) == 14 && Sine(22) == 0xd8a1e681
    ensures WordIndex(23) == 4 && BLOCK[4] == 0x00000000 && Shift(23) == 20 && Sine(23) == 0xe7d3fbc8
  {
  }

  lemma After24()
    ensures Steps(24, INIT, BLOCK) == Quad(0x59a8ffda, 0x47092c07, 0xabfc7920, 0x6d002f1e)
  {
    hide FF, GG, HH, II, WordIndex, Shift, Sine, Step, Steps;
    After20(); Values20(); Tables20();
    StepIs(20, Quad(0x3e9e9126, 0xb5b204e4, 0xe25e1652, 0x4a1d804e), 0x00000000, 5, 0xd62f105d, 0x59a8ffda);
    StepIs(21, Quad(0x4a1d804e, 0x59a8ffda, 0xb5b204e4, 0xe25e1652), 0x00000000, 9, 0x02441453, 0x6d002f1e);
    StepIs(22, Quad(0xe25e1652, 0x6d002f1e, 0x59a8ffda, 0xb5b204e4), 0x00000000, 14, 0xd8a1e681, 0xabfc7920);
    StepIs(23, Quad(0xb5b204e4, 0xabfc7920, 0x6d002f1e, 0x59a8ffda), 0x00000000, 20, 0xe7d3fbc8, 0x47092c07);
    FourMore(20, Quad(0x3e9e9126, 0xb5b204e4, 0xe25e1652, 0x4a1d804e),
             Quad(0x4a1d804e, 0x59a8ffda, 0xb5b204e4, 0xe25e1652),
             Quad(0xe25e1652, 0x6d002f1e, 0x59a8ffda, 0xb5b204e4),
             Quad(0xb5b204e4, 0xabfc7920, 0x6d002f1e, 0x59a8ffda),
             Quad(0x59a8ffda, 0x47092c07, 0xabfc7920, 0x6d002f1e));
  }

  lemma Values24()
    ensures GG(0x59a8ffda, 0x47092c07, 0xabfc7920, 0x6d002f1e, 0x00000000, 5, 0x21e1cde6) == 0xb7f268cf
    ensures GG(0x6d002f1e, 0xb7f268cf, 0x47092c07, 0xabfc7920, 0x00000018, 9, 0xc33707d6) == 0x09388eff
    ensures GG(0xabfc7920, 0x09388eff, 0xb7f268cf, 0x47092c07, 0x00000000, 14, 0xf4d50d87) == 0xfe1623b1
    ensures GG(0x47092c07, 0xfe1623b1, 0x09388eff, 0xb7f268cf, 0x00000000, 20, 0x455a14ed) == 0x786acb8f
  {
  }

  lemma Tables24()
    ensures WordIndex(24) == 9 && BLOCK[9] == 0x00000000 && Shift(24) == 5 && Sine(24) == 0x21e1cde6
    ensures WordIndex(25) == 14 && BLOCK[14] == 0x00000018 && Shift(25) == 9 && Sine(25) == 0xc33707d6
    ensures WordIndex(26) == 3 && BLOCK[3] == 0x00000000 && Shift(26) == 14 && Sine(26) == 0xf4d50d87
    ensures WordIndex(27) == 8 && BLOCK[8] == 0x00000000 && Shift(27) == 20 && Sine(27) == 0x455a14ed
  {
  }

  lemma After28()
    ensures Steps(28, INIT, BLOCK) == Quad(0xb7f268cf, 0x786acb8f, 0xfe1623b1, 0x09388eff)
  {
    hide FF, GG, HH, II, WordIndex, Shift, Sine, Step, Steps;
    After24(); Values24(); Tables24();
    StepIs(24, Quad(0x59a8ffda, 0x47092c07, 0xabfc7920, 0x6d002f1e), 0x00000000, 5, 0x21e1cde6, 0xb7f268cf);
    StepIs(25, Quad(0x6d002f1e, 0xb7f268cf, 0x47092c07, 0xabfc7920), 0x00000018, 9, 0xc33707d6, 0x09388eff);
    StepIs(26, Quad(0xabfc7920, 0x09388eff, 0xb7f268cf, 0x47092c07), 0x00000000, 14, 0xf4d50d87, 0xfe1623b1);
    StepIs(27, Quad(0x47092c07, 0xfe1623b1, 0x09388eff, 0xb7f268cf), 0x00000000, 20, 0x455a14ed, 0x786acb8f);
    FourMore(24, Quad(0x59a8ffda, 0x47092c07, 0xabfc7920, 0x6d002f1e),
             Quad(0x6d002f1e, 0xb7f268cf, 0x47092c07, 0xabfc7920),
             Quad(0xabfc7920, 0x09388eff, 0xb7f268cf, 0x47092c07),
             Quad(0x47092c07, 0xfe1623b1, 0x09388eff, 0xb7f268cf),
             Quad(0xb7f268cf, 0x786acb8f, 0xfe1623b1, 0x09388eff));
  }

  lemma Values28()
    ensures GG(0xb7f268cf, 0x786acb8f, 0xfe1623b1, 0x09388eff, 0x00000000, 5, 0xa9e3e905) == 0x790a77fb
    ensures GG(0x09388eff, 0x790a77fb, 0x786acb8f, 0xfe1623b1, 0x00000000, 9, 0xfcefa3f8) == 0x9f47e4f8
    ensures GG(0xfe1623b1, 0x9f47e4f8, 0x790a77fb, 0x786acb8f, 0x00000000, 14, 0x676f02d9) == 0xa62884aa
    ensures GG(0x786acb8f, 0xa62884aa, 0x9f47e4f8, 0x790a77fb, 0x00000000, 20, 0x8d2a4c8a) == 0x726342d3
  {
  }

  lemma Tables28()
    ensures WordIndex(28) == 13 && BLOCK[13] == 0x00000000 && Shift(28) == 5 && Sine(28) == 0xa9e3e905
    ensures WordIndex(29) == 2 && BLOCK[2] == 0x00000000 && Shift(29) == 9 && Sine(29) == 0xfcefa3f8
    ensures WordIndex(30) == 7 && BLOCK[7] == 0x00000000 && Shift(30) == 14 && Sine(30) == 0x676f02d9
    ensures WordIndex(31) == 12 && BLOCK[12] == 0x00000000 && Shift(31) == 20 && Sine(31) == 0x8d2a4c8a
  {
  }

  lemma After32()
    ensures Steps(32, INIT, BLOCK) == Quad(0x790a77fb, 0x726342d3, 0xa62884aa, 0x9f47e4f8)
  {
    hide FF, GG, HH, II, WordIndex, Shift, Sine, Step, Steps;
    After28(); Values28(); Tables28();
    StepIs(28, Quad(0xb7f268cf, 0x786acb8f, 0xfe1623b1, 0x09388eff), 0x00000000, 5, 0xa9e3e905, 0x790a77fb);
    StepIs(29, Quad(0x09388eff, 0x790a77fb, 0x786acb8f, 0xfe1623b1), 0x00000000, 9, 0xfcefa3f8, 0x9f47e4f8);
    StepIs(30, Quad(0xfe1623b1, 0x9f47e4f8, 0x790a77fb, 0x786acb8f), 0x00000000, 14, 0x676f02d9, 0xa62884aa);
    StepIs(31, Quad(0x786acb8f, 0xa62884aa, 0x9f47e4f8, 0x790a77fb), 0x00000000, 20, 0x8d2a4c8a, 0x726342d3);
    FourMore(28, Quad(0xb7f268cf, 0x786acb8f, 0xfe1623b1, 0x09388eff),
             Quad(0x09388eff, 0x790a77fb, 0x786acb8f, 0xfe1623b1),
             Quad(0xfe1623b1, 0x9f47e4f8, 0x790a77fb, 0x786acb8f),
             Quad(0x786acb8f, 0xa62884aa, 0x9f47e4f8, 0x790a77fb),
             Quad(0x790a77fb, 0x726342d3, 0xa62884aa, 0x9f47e4f8));
  }

  lemma Values32()
    ensures HH(0x790a77fb, 0x726342d3, 0xa62884aa, 0x9f47e4f8, 0x00000000, 4, 0xfffa3942) == 0xb3707ebf
    ensures HH(0x9f47e4f8, 0xb3707ebf, 0x726342d3, 0xa62884aa, 0x00000000, 11, 0x8771f681) == 0x60127b2e
    ensures HH(0xa62884aa, 0x60127b2e, 0xb3707ebf, 0x726342d3, 0x00000000, 16, 0x6d9d6122) == 0x8d212ff5
    ensures HH(0x726342d3, 0x8d212ff5, 0x60127b2e, 0xb3707ebf, 0x00000018, 23, 0xfde5380c) == 0x3b0875c7
  {
  }

  lemma Tables32()
    ensures WordIndex(32) == 5 && BLOCK[5] == 0x00000000 && Shift(32) == 4 && Sine(32) == 0xfffa3942
    ensures WordIndex(33) == 8 && BLOCK[8] == 0x00000000 && Shift(33) == 11 && Sine(33) == 0x8771f681
    ensures WordIndex(34) == 11 && BLOCK[11] == 0x00000000 && Shift(34) == 16 && Sine(34) == 0x6d9d6122
    ensures WordIndex(35) == 14 && BLOCK[14] == 0x00000018 && Shift(35) == 23 && Sine(35) == 0xfde5380c
  {
  }

  lemma After36()
    ensures Steps(36, INIT, BLOCK) == Quad(0xb3707ebf, 0x3b0875c7, 0x8d212ff5, 0x60127b2e)
  {
    hide FF, GG, HH, II, WordIndex, Shift, Sine, Step, Steps;
    After32(); Values32(); Tables32();
    StepIs(32, Quad(0x790a77fb, 0x726342d3, 0xa62884aa, 0x9f47e4f8), 0x00000000, 4, 0xfffa3942, 0xb3707ebf);
    StepIs(33, Quad(0x9f47e4f8, 0xb3707ebf, 0x726342d3, 0xa62884aa), 0x00000000, 11, 0x8771f681, 0x60127b2e);
    StepIs(34, Quad(0xa62884aa, 0x60127b2e, 0xb3707ebf, 0x726342d3), 0x00000000, 16, 0x6d9d6122, 0x8d212ff5);
    StepIs(35, Quad(0x726342d3, 0x8d212ff5, 0x60127b2e, 0xb3707ebf), 0x00000018, 23, 0xfde5380c, 0x3b0875c7);
    FourMore(32, Quad(0x790a77fb, 0x726342d3, 0xa62884aa, 0x9f47e4f8),
             Quad(0x9f47e4f8, 0xb3707ebf, 0x726342d3, 0xa62884aa),
             Quad(0xa62884aa, 0x60127b2e, 0xb3707ebf, 0x726342d3),
             Quad(0x726342d3, 0x8d212ff5, 0x60127b2e, 0xb3707ebf),
             Quad(0xb3707ebf, 0x3b0875c7, 0x8d212ff5, 0x60127b2e));
  }

  lemma Values36()
    ensures HH(0xb3707ebf, 0x3b0875c7, 0x8d212ff5, 0x60127b2e, 0x00000000, 4, 0xa4beea44) == 0x21b117b9
    ensures HH(0x60127b2e, 0x21b117b9, 0x3b0875c7, 0x8d212ff5, 0x00000000, 11, 0x4bdecfa9) == 0x6e7429d5
    ensures HH(0x8d212ff5, 0x6e7429d5, 0x21b117b9, 0x3b0875c7, 0x00000000, 16, 0xf6bb4b60) == 0x3575227e
    ensures HH(0x3b0875c7, 0x3575227e, 0x6e7429d5, 0x21b117b9, 0x00000000, 23, 0xbebfbc70) == 0x5a2f5ea5
  {
  }

  lemma Tables36()
    ensures WordIndex(36) == 1 && BLOCK[1] == 0x00000000 && Shift(36) == 4 && Sine(36) == 0xa4beea44
    ensures WordIndex(37) == 4 && BLOCK[4] == 0x00000000 && Shift(37) == 11 && Sine(37) == 0x4bdecfa9
    ensures WordIndex(38) == 7 && BLOCK[7] == 0x00000000 && Shift(38) == 16 && Sine(38) == 0xf6bb4b60
    ensures WordIndex(39) == 10 && BLOCK[10] == 0x00000000 && Shift(39) == 23 && Sine(39) == 0xbebfbc70
  {
  }

  lemma After40()
    ensures Steps(40, INIT, BLOCK) == Quad(0x21b117b9, 0x5a2f5ea5, 0x3575227e, 0x6e7429d5)
  {
    hide FF, GG, HH, II, WordIndex, Shift, Sine, Step, Steps;
    After36(); Values36(); Tables36();
    StepIs(36, Quad(0xb3707ebf, 0x3b0875c7, 0x8d212ff5, 0x60127b2e), 0x00000000, 4, 0xa4beea44, 0x21b117b9);
    StepIs(37, Quad(0x60127b2e, 0x21b117b9, 0x3b0875c7, 0x8d212ff5), 0x00000000, 11, 0x4bdecfa9, 0x6e7429d5);
    StepIs(38, Quad(0x8d212ff5, 0x6e7429d5, 0x21b117b9, 0x3b0875c7), 0x00000000, 16, 0xf6bb4b60, 0x3575227e);
    StepIs(39, Quad(0x3b0875c7, 0x3575227e, 0x6e7429d5, 0x21b117b9), 0x00000000, 23, 0xbebfbc70, 0x5a2f5ea5);
    FourMore(36, Quad(0xb3707ebf, 0x3b0875c7, 0x8d212ff5, 0x60127b2e),
             Quad(0x60127b2e, 0x21b117b9, 0x3b0875c7, 0x8d212ff5),
             Quad(0x8d212ff5, 0x6e7429d5, 0x21b117b9, 0x3b0875c7),
             Quad(0x3b0875c7, 0x3575227e, 0x6e7429d5, 0x21b117b9),
             Quad(0x21b117b9, 0x5a2f5ea5, 0x3575227e, 0x6e7429d5));
  }

  lemma Values40()
    ensures HH(0x21b117b9, 0x5a2f5ea5, 0x3575227e, 0x6e7429d5, 0x00000000, 4, 0x289b7ec6) == 0x11de1779
    ensures HH(0x6e7429d5, 0x11de1779, 0x5a2f5ea5, 0x3575227e, 0x80636261, 11, 0xeaa127fa) == 0xfadcaa38
    ensures HH(0x3575227e, 0xfadcaa38, 0x11de1779, 0x5a2f5ea5, 0x00000000, 16, 0xd4ef3085) == 0x31c465ca
    ensures HH(0x5a2f5ea5, 0x31c465ca, 0xfadcaa38, 0x11de1779, 0x00000000, 23, 0x04881d05) == 0x4c6124f4
  {
  }

  lemma Tables40()
    ensures WordIndex(40) == 13 && BLOCK[13] == 0x00000000 && Shift(40) == 4 && Sine(40) == 0x289b7ec6
    ensures WordIndex(41) == 0 && BLOCK[0] == 0x80636261 && Shift(41) == 11 && Sine(41) == 0xeaa127fa
    ensures WordIndex(42) == 3 && BLOCK[3] == 0x00000000 && Shift(42) == 16 && Sine(42) == 0xd4ef3085
    ensures WordIndex(43) == 6 && BLOCK[6] == 0x00000000 && Shift(43) == 23 && Sine(43) == 0x04881d05
  {
  }

  lemma After44()
    ensures Steps(44, INIT, BLOCK) == Quad(0x11de1779, 0x4c6124f4, 0x31c465ca, 0xfadcaa38)
  {
    hide FF, GG, HH, II, WordIndex, Shift, Sine, Step, Steps;
    After40(); Values40(); Tables40();
    StepIs(40, Quad(0x21b117b9, 0x5a2f5ea5, 0x3575227e, 0x6e7429d5), 0x00000000, 4, 0x289b7ec6, 0x11de1779);
    StepIs(41, Quad(0x6e7429d5, 0x11de1779, 0x5a2f5ea5, 0x3575227e), 0x80636261, 11, 0xeaa127fa, 0xfadcaa38);
    StepIs(42, Quad(0x3575227e, 0xfadcaa38, 0x11de1779, 0x5a2f5ea5), 0x00000000, 16, 0xd4ef3085, 0x31c465ca);
    StepIs(43, Quad(0x5a2f5ea5, 0x31c465ca, 0xfadcaa38, 0x11de1779), 0x00000000, 23, 0x04881d05, 0x4c6124f4);
    FourMore(40, Quad(0x21b117b9, 0x5a2f5ea5, 0x3575227e, 0x6e7429d5),
             Quad(0x6e7429d5, 0x11de1779, 0x5a2f5ea5, 0x3575227e),
             Quad(0x3575227e, 0xfadcaa38, 0x11de1779, 0x5a2f5ea5),
             Quad(0x5a2f5ea5, 0x31c465ca, 0xfadcaa38, 0x11de1779),
             Quad(0x11de1779, 0x4c6124f4, 0x31c465ca, 0xfadcaa38));
  }

  lemma Values44()
    ensures HH(0x11de1779, 0x4c6124f4, 0x31c465ca, 0xfadcaa38, 0x00000000, 4, 0xd9d4d039) == 0x7f2e507b
    ensures HH(0xfadcaa38, 0x7f2e507b, 0x4c6124f4, 0x31c465ca, 0x00000000, 11, 0xe6db99e5) == 0x99d9679d
    ensures HH(0x31c465ca, 0x99d9679d, 0x7f2e507b, 0x4c6124f4, 0x00000000, 16, 0x1fa27cf8) == 0x8fae6399
    ensures HH(0x4c6124f4, 0x8fae6399, 0x99d9679d, 0x7f2e507b, 0x00000000, 23, 0xc4ac5665) == 0x7beb9700
  {
  }

  lemma Tables44()
    ensures WordIndex(44) == 9 && BLOCK[9] == 0x00000000 && Shift(44) == 4 && Sine(44) == 0xd9d4d039
    ensures WordIndex(45) == 12 && BLOCK[12] == 0x00000000 && Shift(45) == 11 && Sine(45) == 0xe6db99e5
    ensures WordIndex(46) == 15 && BLOCK[15] == 0x00000000 && Shift(46) == 16 && Sine(46) == 0x1fa27cf8
    ensures WordIndex(47) == 2 && BLOCK[2] == 0x00000000 && Shift(47) == 23 && Sine(47) == 0xc4ac5665
  {
  }

  lemma After48()
    ensures Steps(48, INIT, BLOCK) == Quad(0x7f2e507b, 0x7beb9700, 0x8fae6399, 0x99d9679d)
  {
    hide FF, GG, HH, II, WordIndex, Shift, Sine, Step, Steps;
    After44(); Values44(); Tables44();
    StepIs(44, Quad(0x11de1779, 0x4c6124f4, 0x31c465ca, 0xfadcaa38), 0x00000000, 4, 0xd9d4d039, 0x7f2e507b);
    StepIs(45, Quad(0xfadcaa38, 0x7f2e507b, 0x4c6124f4, 0x31c465ca), 0x00000000, 11, 0xe6db99e5, 0x99d9679d);
    StepIs(46, Quad(0x31c465ca, 0x99d9679d, 0x7f2e507b, 0x4c6124f4), 0x00000000, 16, 0x1fa27cf8, 0x8fae6399);
    StepIs(47, Quad(0x4c6124f4, 0x8fae6399, 0x99d9679d, 0x7f2e507b), 0x00000000, 23, 0xc4ac5665, 0x7beb9700);
    FourMore(44, Quad(0x11de1779, 0x4c6124f4, 0x31c465ca, 0xfadcaa38),
             Quad(0xfadcaa38, 0x7f2e507b, 0x4c6124f4, 0x31c465ca),
             Quad(0x31c465ca, 0x99d9679d, 0x7f2e507b, 0x4c6124f4),
             Quad(0x4c6124f4, 0x8fae6399, 0x99d9679d, 0x7f2e507b),
             Quad(0x7f2e507b, 0x7beb9700, 0x8fae6399, 0x99d9679d));
  }

  lemma Values48()
    ensures II(0x7f2e507b, 0x7beb9700, 0x8fae6399, 0x99d9679d, 0x80636261, 6, 0xf4292244) == 0x7b201df8
    ensures II(0x99d9679d, 0x7b201df8, 0x7beb9700, 0x8fae6399, 0x00000000, 10, 0x432aff97) == 0xf4e8e96e
    ensures II(0x8fae6399, 0xf4e8e96e, 0x7b201df8, 0x7beb9700, 0x00000018, 15, 0xab9423a7) == 0xb298cefd
    ensures II(0x7beb9700, 0xb298cefd, 0xf4e8e96e, 0x7b201df8, 0x00000000, 21, 0xfc93a039) == 0x8bf025c4
  {
  }

  lemma Tables48()
    ensures WordIndex(48) == 0 && BLOCK[0] == 0x80636261 && Shift(48) == 6 && Sine(48) == 0xf4292244
    ensures WordIndex(49) == 7 && BLOCK[7] == 0x00000000 && Shift(49) == 10 && Sine(49) == 0x432aff97
    ensures WordIndex(50) == 14 && BLOCK[14] == 0x00000018 && Shift(50) == 15 && Sine(50) == 0xab9423a7
    ensures WordIndex(51) == 5 && BLOCK[5] == 0x00000000 && Shift(51) == 21 && Sine(51) == 0xfc93a039
  {
  }

  lemma After52()
    ensures Steps(52, INIT, BLOCK) == Quad(0x7b201df8, 0x8bf025c4, 0xb298cefd, 0xf4e8e96e)
  {
    hide FF, GG, HH, II, WordIndex, Shift, Sine, Step, Steps;
    After48(); Values48(); Tables48();
    StepIs(48, Quad(0x7f2e507b, 0x7beb9700, 0x8fae6399, 0x99d9679d), 0x80636261, 6, 0xf4292244, 0x7b201df8);
    StepIs(49, Quad(0x99d9679d, 0x7b201df8, 0x7beb9700, 0x8fae6399), 0x00000000, 10, 0x432aff97, 0xf4e8e96e);
    StepIs(50, Quad(0x8fae6399, 0xf4e8e96e, 0x7b201df8, 0x7beb9700), 0x00000018, 15, 0xab9423a7, 0xb298cefd);
    StepIs(51, Quad(0x7beb9700, 0xb298cefd, 0xf4e8e96e, 0x7b201df8), 0x00000000, 21, 0xfc93a039, 0x8bf025c4);
    FourMore(48, Quad(0x7f2e507b, 0x7beb9700, 0x8fae6399, 0x99d9679d),
             Quad(0x99d9679d, 0x7b201df8, 0x7beb9700, 0x8fae6399),
             Quad(0x8fae6399, 0xf4e8e96e, 0x7b201df8, 0x7beb9700),
             Quad(0x7beb9700, 0xb298cefd, 0xf4e8e96e, 0x7b201df8),
             Quad(0x7b201df8, 0x8bf025c4, 0xb298cefd, 0xf4e8e96e));
  }

  lemma Values52()
    ensures II(0x7b201df8, 0x8bf025c4, 0xb298cefd, 0xf4e8e96e, 0x00000000, 6, 0x655b59c3) == 0x06cc5e8a
    ensures II(0xf4e8e96e, 0x06cc5e8a, 0x8bf025c4, 0xb298cefd, 0x00000000, 10, 0x8f0ccc92) == 0x5b0d97aa
    ensures II(0xb298cefd, 0x5b0d97aa, 0x06cc5e8a, 0x8bf025c4, 0x00000000, 15, 0xffeff47d) == 0x7d632dd0
    ensures II(0x8bf025c4, 0x7d632dd0, 0x5b0d97aa, 0x06cc5e8a, 0x00000000, 21, 0x85845dd1) == 0x3bfa2c27
  {
  }

  lemma Tables52()
    ensures WordIndex(52) == 12 && BLOCK[12] == 0x00000000 && Shift(52) == 6 && Sine(52) == 0x655b59c3
    ensures WordIndex(53) == 3 && BLOCK[3] == 0x00000000 && Shift(53) == 10 && Sine(53) == 0x8f0ccc92
    ensures WordIndex(54) == 10 && BLOCK[10] == 0x00000000 && Shift(54) == 15 && Sine(54) == 0xffeff47d
    ensures WordIndex(55) == 1 && BLOCK[1] == 0x00000000 && Shift(55) == 21 && Sine(55) == 0x85845dd1
  {
  }

  lemma After56()
    ensures Steps(56, INIT, BLOCK) == Quad(0x06cc5e8a, 0x3bfa2c27, 0x7d632dd0, 0x5b0d97aa)
  {
    hide FF, GG, HH, II, WordIndex, Shift, Sine, Step, Steps;
    After52(); Values52(); Tables52();
    StepIs(52, Quad(0x7b201df8, 0x8bf025c4, 0xb298cefd, 0xf4e8e96e), 0x00000000, 6, 0x655b59c3, 0x06cc5e8a);
    StepIs(53, Quad(0xf4e8e96e, 0x06cc5e8a, 0x8bf025c4, 0xb298cefd), 0x00000000, 10, 0x8f0ccc92, 0x5b0d97aa);
    StepIs(54, Quad(0xb298cefd, 0x5b0d97aa, 0x06cc5e8a, 0x8bf025c4), 0x00000000, 15, 0xffeff47d, 0x7d632dd0);
    StepIs(55, Quad(0x8bf025c4, 0x7d632dd0, 0x5b0d97aa, 0x06cc5e8a), 0x00000000, 21, 0x85845dd1, 0x3bfa2c27);
    FourMore(52, Quad(0x7b201df8, 0x8bf025c4, 0xb298cefd, 0xf4e8e96e),
             Quad(0xf4e8e96e, 0x06cc5e8a, 0x8bf025c4, 0xb298cefd),
             Quad(0xb298cefd, 0x5b0d97aa, 0x06cc5e8a, 0x8bf025c4),
             Quad(0x8bf025c4, 0x7d632dd0, 0x5b0d97aa, 0x06cc5e8a),
             Quad(0x06cc5e8a, 0x3bfa2c27, 0x7d632dd0, 0x5b0d97aa));
  }

  lemma Values56()
    ensures II(0x06cc5e8a, 0x3bfa2c27, 0x7d632dd0, 0x5b0d97aa, 0x00000000, 6, 0x6fa87e4f) == 0x7f81cc35
    ensures II(0x5b0d97aa, 0x7f81cc35, 0x3bfa2c27, 0x7d632dd0, 0x00000000, 10, 0xfe2ce6e0) == 0x094454ab
    ensures II(0x7d632dd0, 0x094454ab, 0x7f81cc35, 0x3bfa2c27, 0x00000000, 15, 0xa3014314) == 0x4f9dbe3f
    ensures II(0x3bfa2c27, 0x4f9dbe3f, 0x094454ab, 0x7f81cc35, 0x00000000, 21, 0x4e0811a1) == 0x7327d604
  {
  }

  lemma Tables56()
    ensures WordIndex(56) == 8 && BLOCK[8] == 0x00000000 && Shift(56) == 6 && Sine(56) == 0x6fa87e4f
    ensures WordIndex(57) == 15 && BLOCK[15] == 0x00000000 && Shift(57) == 10 && Sine(57) == 0xfe2ce6e0
    ensures WordIndex(58) == 6 && BLOCK[6] == 0x00000000 && Shift(58) == 15 && Sine(58) == 0xa3014314
    ensures WordIndex(59) == 13 && BLOCK[13] == 0x00000000 && Shift(59) == 21 && Sine(59) == 0x4e0811a1
  {
  }

  lemma After60()
    ensures Steps(60, INIT, BLOCK) == Quad(0x7f81cc35, 0x7327d604, 0x4f9dbe3f, 0x094454ab)
  {
    hide FF, GG, HH, II, WordIndex, Shift, Sine, Step, Steps;
    After56(); Values56(); Tables56();
    StepIs(56, Quad(0x06cc5e8a, 0x3bfa2c27, 0x7d632dd0, 0x5b0d97aa), 0x00000000, 6, 0x6fa87e4f, 0x7f81cc35);
    StepIs(57, Quad(0x5b0d97aa, 0x7f81cc35, 0x3bfa2c27, 0x7d632dd0), 0x00000000, 10, 0xfe2ce6e0, 0x094454ab);
    StepIs(58, Quad(0x7d632dd0, 0x094454ab, 0x7f81cc35, 0x3bfa2c27), 0x00000000, 15, 0xa3014314, 0x4f9dbe3f);
    StepIs(59, Quad(0x3bfa2c27, 0x4f9dbe3f, 0x094454ab, 0x7f81cc35), 0x00000000, 21, 0x4e0811a1, 0x7327d604);
    FourMore(56, Quad(0x06cc5e8a, 0x3bfa2c27, 0x7d632dd0, 0x5b0d97aa),
             Quad(0x5b0d97aa, 0x7f81cc35, 0x3bfa2c27, 0x7d632dd0),
             Quad(0x7d632dd0, 0x094454ab, 0x7f81cc35, 0x3bfa2c27),
             Quad(0x3bfa2c27, 0x4f9dbe3f, 0x094454ab, 0x7f81cc35),
             Quad(0x7f81cc35, 0x7327d604, 0x4f9dbe3f, 0x094454ab));
  }

  lemma Values60()
    ensures II(0x7f81cc35, 0x7327d604, 0x4f9dbe3f, 0x094454ab, 0x00000000, 6, 0xf7537e82) == 0x310ade8f
    ensures II(0x094454ab, 0x310ade8f, 0x7327d604, 0x4f9dbe3f, 0x00000000, 10, 0xbd3af235) == 0x624d8cb2
    ensures II(0x4f9dbe3f, 0x624d8cb2, 0x310ade8f, 0x7327d604, 0x00000000, 15, 0x2ad7d2bb) == 0xe484b9d8
    ensures II(0x7327d604, 0xe484b9d8, 0x624d8cb2, 0x310ade8f, 0x00000000, 21, 0xeb86d391) == 0xc08226b3
  {
  }

  lemma Tables60()
    ensures WordIndex(60) == 4 && BLOCK[4] == 0x00000000 && Shift(60) == 6 && Sine(60) == 0xf7537e82
    ensures WordIndex(61) == 11 && BLOCK[11] == 0x00000000 && Shift(61) == 10 && Sine(61) == 0xbd3af235
    ensures WordIndex(62) == 2 && BLOCK[2] == 0x00000000 && Shift(62) == 15 && Sine(62) == 0x2ad7d2bb
    ensures WordIndex(63) == 9 && BLOCK[9] == 0x00000000 && Shift(63) == 21 && Sine(63) == 0xeb86d391
  {
  }

  lemma After64()
    ensures Steps(64, INIT, BLOCK) == Quad(0x310ade8f, 0xc08226b3, 0xe484b9d8, 0x624d8cb2)
  {
    hide FF, GG, HH, II, WordIndex, Shift, Sine, Step, Steps;
    After60(); Values60(); Tables60();
    StepIs(60, Quad(0x7f81cc35, 0x7327d604, 0x4f9dbe3f, 0x094454ab), 0x00000000, 6, 0xf7537e82, 0x310ade8f);
    StepIs(61, Quad(0x094454ab, 0x310ade8f, 0x7327d604, 0x4f9dbe3f), 0x00000000, 10, 0xbd3af235, 0x624d8cb2);
    StepIs(62, Quad(0x4f9dbe3f, 0x624d8cb2, 0x310ade8f, 0x7327d604), 0x00000000, 15, 0x2ad7d2bb, 0xe484b9d8);
    StepIs(63, Quad(0x7327d604, 0xe484b9d8, 0x624d8cb2, 0x310ade8f), 0x00000000, 21, 0xeb86d391, 0xc08226b3);
    FourMore(60, Quad(0x7f81cc35, 0x7327d604, 0x4f9dbe3f, 0x094454ab),
             Quad(0x094454ab, 0x310ade8f, 0x7327d604, 0x4f9dbe3f),
             Quad(0x4f9dbe3f, 0x624d8cb2, 0x310ade8f, 0x7327d604),
             Quad(0x7327d604, 0xe484b9d8, 0x624d8cb2, 0x310ade8f),
             Quad(0x310ade8f, 0xc08226b3, 0xe484b9d8, 0x624d8cb2));
  }

  lemma NoOperations()
    ensures Steps(0, INIT, BLOCK) == INIT
  {
  }

  // ---------- the block and the digest ----------

  lemma ZerosOfAbc()
    ensures Zeros(3) == 52 && BitLength(3) == [24, 0, 0, 0, 0, 0, 0, 0]
  {
    assert LittleEndian(24) == [24, 0, 0, 0] && LittleEndian(0) == [0, 0, 0, 0];
  }

  lemma PaddedAbc()
    ensures var p := Padded(ABC);
            && |p| == 64 && p[..4] == [0x61, 0x62, 0x63, 0x80]
            && (forall i | 4 <= i < 56 :: p[i] == 0) && p[56..] == [24, 0, 0, 0, 0, 0, 0, 0]
  {
    ZerosOfAbc();
    hide Zeros, BitLength;
    assert Padded(ABC) == [0x61, 0x62, 0x63, 0x80] + seq(52, _ => 0) + [24, 0, 0, 0, 0, 0, 0, 0];
  }

  lemma WordsOfAbc()
    ensures |Padded(ABC)| == 64 && Words(Padded(ABC)) == BLOCK
  {
    hide Padded;
    PaddedAbc();
    var p := Padded(ABC);
    assert p[..4][0] == p[0] && p[..4][1] == p[1] && p[..4][2] == p[2] && p[..4][3] == p[3];
    assert p[56..][0] == p[56] && p[56..][1] == p[57] && p[56..][2] == p[58] && p[56..][3] == p[59];
    assert p[56..][4] == p[60] && p[56..][5] == p[61] && p[56..][6] == p[62] && p[56..][7] == p[63];
    Vectors();
    hide Vector;
    forall i: nat | i < 16 ensures Vector(Word(p, 4 * i)) == BLOCK[i] {
      if i == 0 { assert Word(p, 0) == 0x80636261; }
      else if i == 14 { assert Word(p, 56) == 24; }
      else { assert Word(p, 4 * i) == 0; }
    }
  }

  lemma Vectors()
    ensures Vector(0) == 0 && Vector(24) == 24 && Vector(0x80636261) == 0x80636261
  {
  }

  lemma Sums()
    ensures Plus(INIT.a, ANSWER.a) == 0x98500190 && Plus(INIT.b, ANSWER.b) == 0xb04fd23c
    ensures Plus(INIT.c, ANSWER.c) == 0x7d3f96d6 && Plus(INIT.d, ANSWER.d) == 0x727fe128
  {
  }

  lemma FoldedAbc()
    ensures |Padded(ABC)| == 64 && Folded(Padded(ABC), 1) == Quad(0x98500190, 0xb04fd23c, 0x7d3f96d6, 0x727fe128)
  {
    hide Padded, Steps, Words, Plus;
    WordsOfAbc();
    After64();
    Sums();
    var p := Padded(ABC);
    assert p[0..64] == p;
    assert Folded(p, 0) == INIT;
  }

  /** The digest that the standard prints: 900150983cd24fb0d6963f7d28e17f72. */
  lemma KnownDigest()
    ensures Digest(ABC) == [0x90, 0x01, 0x50, 0x98, 0x3c, 0xd2, 0x4f, 0xb0]
                         + [0xd6, 0x96, 0x3f, 0x7d, 0x28, 0xe1, 0x7f, 0x72]
  {
    hide Padded, Folded, LittleEndian, LittleEndians;
    FoldedAbc();
    FourWords(0x98500190, 0xb04fd23c, 0x7d3f96d6, 0x727fe128);
    Bytes();
  }

  lemma Bytes()
    ensures LittleEndian(0x98500190) == [0x90, 0x01, 0x50, 0x98] && LittleEndian(0xb04fd23c) == [0x3c, 0xd2, 0x4f, 0xb0]
    ensures LittleEndian(0x7d3f96d6) == [0xd6, 0x96, 0x3f, 0x7d] && LittleEndian(0x727fe128) == [0x28, 0xe1, 0x7f, 0x72]
  {
  }

}
