/** The block transformation of MD5: the four functions of section 3.4 of RFC 1321 bit by bit, and the source's 64
    unrolled operations against the four rounds that section gives by word index, shift and entry of the sine table. */
module Md5Transform {
  import opened Prelude

  type u32 = x: int | 0 <= x < U32

  type Block = s: seq<byte> | |s| == 64 witness seq(64, _ => 0)

  datatype Quad = Quad(a: bv32, b: bv32, c: bv32, d: bv32)

  function RotateLeft(x: bv32, n: nat): bv32
    requires 0 < n < 32
  {
    (x << n) | (x >> (32 - n))
  }

  // The connectives are functions so that proofs can keep them symbolic.

  function And(x: bv32, y: bv32): bv32 { x & y }

  function Or(x: bv32, y: bv32): bv32 { x | y }

  function Exclusive(x: bv32, y: bv32): bv32 { x ^ y }

  function Not(x: bv32): bv32 { !x }

  function F(x: bv32, y: bv32, z: bv32): bv32 { Or(And(x, y), And(Not(x), z)) }

  function G(x: bv32, y: bv32, z: bv32): bv32 { Or(And(x, z), And(y, Not(z))) }

  function H(x: bv32, y: bv32, z: bv32): bv32 { Exclusive(Exclusive(x, y), z) }

  function I(x: bv32, y: bv32, z: bv32): bv32 { Exclusive(y, Or(x, Not(z))) }

  function FF(a: bv32, b: bv32, c: bv32, d: bv32, x: bv32, s: nat, ac: bv32): bv32
    requires 0 < s < 32
  {
    RotateLeft(a + F(b, c, d) + x + ac, s) + b
  }

  function GG(a: bv32, b: bv32, c: bv32, d: bv32, x: bv32, s: nat, ac: bv32): bv32
    requires 0 < s < 32
  {
    RotateLeft(a + G(b, c, d) + x + ac, s) + b
  }

  function HH(a: bv32, b: bv32, c: bv32, d: bv32, x: bv32, s: nat, ac: bv32): bv32
    requires 0 < s < 32
  {
    RotateLeft(a + H(b, c, d) + x + ac, s) + b
  }

  function II(a: bv32, b: bv32, c: bv32, d: bv32, x: bv32, s: nat, ac: bv32): bv32
    requires 0 < s < 32
  {
    RotateLeft(a + I(b, c, d) + x + ac, s) + b
  }

  // ---------- what the functions do, bit by bit ----------

  predicate BitAt(x: bv32, k: bv6)
    requires k < 32
  {
    (x >> k) & 1 == 1
  }

  /** Section 3.4 of RFC 1321: F chooses by its first argument, G by its third, H is the parity, and I is the second
      argument unless the first is one or the third zero, which turn it over. */
  lemma Choices(x: bv32, y: bv32, z: bv32, k: bv6)
    requires k < 32
    ensures BitAt(F(x, y, z), k) == if BitAt(x, k) then BitAt(y, k) else BitAt(z, k)
    ensures BitAt(G(x, y, z), k) == if BitAt(z, k) then BitAt(x, k) else BitAt(y, k)
    ensures BitAt(H(x, y, z), k) == ((BitAt(x, k) != BitAt(y, k)) != BitAt(z, k))
    ensures BitAt(I(x, y, z), k) == (BitAt(y, k) != (BitAt(x, k) || !BitAt(z, k)))
  {
    hide BitAt, And, Or, Exclusive, Not;
    BitOfNot(x, k); BitOfNot(z, k);
    BitOfOr(And(x, y), And(Not(x), z), k); BitOfAnd(x, y, k); BitOfAnd(Not(x), z, k);
    BitOfOr(And(x, z), And(y, Not(z)), k); BitOfAnd(x, z, k); BitOfAnd(y, Not(z), k);
    BitOfExclusive(Exclusive(x, y), z, k); BitOfExclusive(x, y, k);
    BitOfExclusive(y, Or(x, Not(z)), k); BitOfOr(x, Not(z), k);
  }

  lemma BitOfAnd(x: bv32, y: bv32, k: bv6)
    requires k < 32
    ensures BitAt(And(x, y), k) == (BitAt(x, k) && BitAt(y, k))
  {
  }

  lemma BitOfOr(x: bv32, y: bv32, k: bv6)
    requires k < 32
    ensures BitAt(Or(x, y), k) == (BitAt(x, k) || BitAt(y, k))
  {
  }

  lemma BitOfExclusive(x: bv32, y: bv32, k: bv6)
    requires k < 32
    ensures BitAt(Exclusive(x, y), k) == (BitAt(x, k) != BitAt(y, k))
  {
    BitOfXor(x, y, k);
    hide BitAt;
  }

  lemma BitOfXor(x: bv32, y: bv32, k: bv6)
    requires k < 32
    ensures BitAt(x ^ y, k) == (BitAt(x, k) != BitAt(y, k))
  {
  }

  lemma BitOfNot(x: bv32, k: bv6)
    requires k < 32
    ensures BitAt(Not(x), k) == !BitAt(x, k)
  {
  }

  /** Rotation takes bit k to bit k + n modulo 32. */
  lemma RotationMoves(x: bv32, n: nat, k: bv6)
    requires 0 < n < 32 && k < 32
    ensures BitAt(RotateLeft(x, n), (k + (n as bv6)) & 31) == BitAt(x, k)
  {
    hide RotateLeft, BitAt;
    if n < 8 { Rotation1(x, n, k); }
    else if n < 16 { Rotation2(x, n, k); }
    else if n < 24 { Rotation3(x, n, k); }
    else { Rotation4(x, n, k); }
  }

  lemma Rotation1(x: bv32, n: nat, k: bv6)
    requires 1 <= n < 8 && k < 32
    ensures BitAt(RotateLeft(x, n), (k + (n as bv6)) & 31) == BitAt(x, k)
  {
    match n
    case 1 => case 2 => case 3 => case 4 => case 5 => case 6 => case _ =>
  }

  lemma Rotation2(x: bv32, n: nat, k: bv6)
    requires 8 <= n < 16 && k < 32
    ensures BitAt(RotateLeft(x, n), (k + (n as bv6)) & 31) == BitAt(x, k)
  {
    match n
    case 8 => case 9 => case 10 => case 11 => case 12 => case 13 => case 14 => case _ =>
  }

  lemma Rotation3(x: bv32, n: nat, k: bv6)
    requires 16 <= n < 24 && k < 32
    ensures BitAt(RotateLeft(x, n), (k + (n as bv6)) & 31) == BitAt(x, k)
  {
    match n
    case 16 => case 17 => case 18 => case 19 => case 20 => case 21 => case 22 => case _ =>
  }

  lemma Rotation4(x: bv32, n: nat, k: bv6)
    requires 24 <= n < 32 && k < 32
    ensures BitAt(RotateLeft(x, n), (k + (n as bv6)) & 31) == BitAt(x, k)
  {
    match n
    case 24 => case 25 => case 26 => case 27 => case 28 => case 29 => case 30 => case _ =>
  }

  // ---------- the rounds by their indices ----------

  /** Which word of the block operation i reads. */
  function WordIndex(i: nat): (k: nat)
    requires i < 64
    ensures k < 16
  {
    match i / 16
    case 0 => i
    case 1 => (5 * i + 1) % 16
    case 2 => (3 * i + 5) % 16
    case _ => (7 * i) % 16
  }

  function Shift(i: nat): (s: nat)
    requires i < 64
    ensures 0 < s < 32
  {
    match i / 16
    case 0 => 7 + 5 * (i % 4)
    case 1 => if i % 4 == 0 then 5 else if i % 4 == 1 then 9 else if i % 4 == 2 then 14 else 20
    case 2 => if i % 4 == 0 then 4 else if i % 4 == 1 then 11 else if i % 4 == 2 then 16 else 23
    case _ => if i % 4 == 0 then 6 else if i % 4 == 1 then 10 else if i % 4 == 2 then 15 else 21
  }

  /** T[i + 1] of the standard. */
  function Sine(i: nat): bv32
    requires i < 64
  {
    match i
    case 0 => 0xd76aa478 case 1 => 0xe8c7b756 case 2 => 0x242070db case 3 => 0xc1bdceee
    case 4 => 0xf57c0faf case 5 => 0x4787c62a case 6 => 0xa8304613 case 7 => 0xfd469501
    case 8 => 0x698098d8 case 9 => 0x8b44f7af case 10 => 0xffff5bb1 case 11 => 0x895cd7be
    case 12 => 0x6b901122 case 13 => 0xfd987193 case 14 => 0xa679438e case 15 => 0x49b40821
    case 16 => 0xf61e2562 case 17 => 0xc040b340 case 18 => 0x265e5a51 case 19 => 0xe9b6c7aa
    case 20 => 0xd62f105d case 21 => 0x02441453 case 22 => 0xd8a1e681 case 23 => 0xe7d3fbc8
    case 24 => 0x21e1cde6 case 25 => 0xc33707d6 case 26 => 0xf4d50d87 case 27 => 0x455a14ed
    case 28 => 0xa9e3e905 case 29 => 0xfcefa3f8 case 30 => 0x676f02d9 case 31 => 0x8d2a4c8a
    case 32 => 0xfffa3942 case 33 => 0x8771f681 case 34 => 0x6d9d6122 case 35 => 0xfde5380c
    case 36 => 0xa4beea44 case 37 => 0x4bdecfa9 case 38 => 0xf6bb4b60 case 39 => 0xbebfbc70
    case 40 => 0x289b7ec6 case 41 => 0xeaa127fa case 42 => 0xd4ef3085 case 43 => 0x04881d05
    case 44 => 0xd9d4d039 case 45 => 0xe6db99e5 case 46 => 0x1fa27cf8 case 47 => 0xc4ac5665
    case 48 => 0xf4292244 case 49 => 0x432aff97 case 50 => 0xab9423a7 case 51 => 0xfc93a039
    case 52 => 0x655b59c3 case 53 => 0x8f0ccc92 case 54 => 0xffeff47d case 55 => 0x85845dd1
    case 56 => 0x6fa87e4f case 57 => 0xfe2ce6e0 case 58 => 0xa3014314 case 59 => 0x4e0811a1
    case 60 => 0xf7537e82 case 61 => 0xbd3af235 case 62 => 0x2ad7d2bb case _ => 0xeb86d391
  }

  /** Operation i; the registers are renamed instead of rotated through the argument list. */
  function Step(i: nat, v: Quad, x: seq<bv32>): Quad
    requires i < 64 && |x| == 16
  {
    var (w, s, t) := (x[WordIndex(i)], Shift(i), Sine(i));
    var r := match i / 16
      case 0 => FF(v.a, v.b, v.c, v.d, w, s, t)
      case 1 => GG(v.a, v.b, v.c, v.d, w, s, t)
      case 2 => HH(v.a, v.b, v.c, v.d, w, s, t)
      case _ => II(v.a, v.b, v.c, v.d, w, s, t);
    Quad(v.d, r, v.b, v.c)
  }

  function Steps(n: nat, v: Quad, x: seq<bv32>): Quad
    requires n <= 64 && |x| == 16
  {
    if n == 0 then v else Step(n - 1, Steps(n - 1, v, x), x)
  }

  lemma FourSteps(n: nat, v: Quad, x: seq<bv32>)
    requires n + 4 <= 64 && |x| == 16
    ensures Steps(n + 4, v, x) == Step(n + 3, Step(n + 2, Step(n + 1, Step(n, Steps(n, v, x), x), x), x), x)
  {
    hide Step;
    assert Steps(n + 2, v, x) == Step(n + 1, Step(n, Steps(n, v, x), x), x);
  }

  lemma Group0(v: Quad, q: Quad, x: seq<bv32>)
    requires |x| == 16 && Steps(0, v, x) == q
    ensures var a := FF(q.a, q.b, q.c, q.d, x[0], 7, 0xd76aa478);
            var d := FF(q.d, a, q.b, q.c, x[1], 12, 0xe8c7b756);
            var c := FF(q.c, d, a, q.b, x[2], 17, 0x242070db);
            var b := FF(q.b, c, d, a, x[3], 22, 0xc1bdceee);
            Steps(4, v, x) == Quad(a, b, c, d)
  {
    hide FF, GG, HH, II, Steps;
    FourSteps(0, v, x);
  }

  lemma Group1(v: Quad, q: Quad, x: seq<bv32>)
    requires |x| == 16 && Steps(4, v, x) == q
    ensures var a := FF(q.a, q.b, q.c, q.d, x[4], 7, 0xf57c0faf);
            var d := FF(q.d, a, q.b, q.c, x[5], 12, 0x4787c62a);
            var c := FF(q.c, d, a, q.b, x[6], 17, 0xa8304613);
            var b := FF(q.b, c, d, a, x[7], 22, 0xfd469501);
            Steps(8, v, x) == Quad(a, b, c, d)
  {
    hide FF, GG, HH, II, Steps;
    FourSteps(4, v, x);
  }

  lemma Group2(v: Quad, q: Quad, x: seq<bv32>)
    requires |x| == 16 && Steps(8, v, x) == q
    ensures var a := FF(q.a, q.b, q.c, q.d, x[8], 7, 0x698098d8);
            var d := FF(q.d, a, q.b, q.c, x[9], 12, 0x8b44f7af);
            var c := FF(q.c, d, a, q.b, x[10], 17, 0xffff5bb1);
            var b := FF(q.b, c, d, a, x[11], 22, 0x895cd7be);
            Steps(12, v, x) == Quad(a, b, c, d)
  {
    hide FF, GG, HH, II, Steps;
    FourSteps(8, v, x);
  }

  lemma Group3(v: Quad, q: Quad, x: seq<bv32>)
    requires |x| == 16 && Steps(12, v, x) == q
    ensures var a := FF(q.a, q.b, q.c, q.d, x[12], 7, 0x6b901122);
            var d := FF(q.d, a, q.b, q.c, x[13], 12, 0xfd987193);
            var c := FF(q.c, d, a, q.b, x[14], 17, 0xa679438e);
            var b := FF(q.b, c, d, a, x[15], 22, 0x49b40821);
            Steps(16, v, x) == Quad(a, b, c, d)
  {
    hide FF, GG, HH, II, Steps;
    FourSteps(12, v, x);
  }

  lemma Group4(v: Quad, q: Quad, x: seq<bv32>)
    requires |x| == 16 && Steps(16, v, x) == q
    ensures var a := GG(q.a, q.b, q.c, q.d, x[1], 5, 0xf61e2562);
            var d := GG(q.d, a, q.b, q.c, x[6], 9, 0xc040b340);
            var c := GG(q.c, d, a, q.b, x[11], 14, 0x265e5a51);
            var b := GG(q.b, c, d, a, x[0], 20, 0xe9b6c7aa);
            Steps(20, v, x) == Quad(a, b, c, d)
  {
    hide FF, GG, HH, II, Steps;
    FourSteps(16, v, x);
  }

  lemma Group5(v: Quad, q: Quad, x: seq<bv32>)
    requires |x| == 16 && Steps(20, v, x) == q
    ensures var a := GG(q.a, q.b, q.c, q.d, x[5], 5, 0xd62f105d);
            var d := GG(q.d, a, q.b, q.c, x[10], 9, 0x02441453);
            var c := GG(q.c, d, a, q.b, x[15], 14, 0xd8a1e681);
            var b := GG(q.b, c, d, a, x[4], 20, 0xe7d3fbc8);
            Steps(24, v, x) == Quad(a, b, c, d)
  {
    hide FF, GG, HH, II, Steps;
    FourSteps(20, v, x);
  }

  lemma Group6(v: Quad, q: Quad, x: seq<bv32>)
    requires |x| == 16 && Steps(24, v, x) == q
    ensures var a := GG(q.a, q.b, q.c, q.d, x[9], 5, 0x21e1cde6);
            var d := GG(q.d, a, q.b, q.c, x[14], 9, 0xc33707d6);
            var c := GG(q.c, d, a, q.b, x[3], 14, 0xf4d50d87);
            var b := GG(q.b, c, d, a, x[8], 20, 0x455a14ed);
            Steps(28, v, x) == Quad(a, b, c, d)
  {
    hide FF, GG, HH, II, Steps;
    FourSteps(24, v, x);
  }

  lemma Group7(v: Quad, q: Quad, x: seq<bv32>)
    requires |x| == 16 && Steps(28, v, x) == q
    ensures var a := GG(q.a, q.b, q.c, q.d, x[13], 5, 0xa9e3e905);
            var d := GG(q.d, a, q.b, q.c, x[2], 9, 0xfcefa3f8);
            var c := GG(q.c, d, a, q.b, x[7], 14, 0x676f02d9);
            var b := GG(q.b, c, d, a, x[12], 20, 0x8d2a4c8a);
            Steps(32, v, x) == Quad(a, b, c, d)
  {
    hide FF, GG, HH, II, Steps;
    FourSteps(28, v, x);
  }

  lemma Group8(v: Quad, q: Quad, x: seq<bv32>)
    requires |x| == 16 && Steps(32, v, x) == q
    ensures var a := HH(q.a, q.b, q.c, q.d, x[5], 4, 0xfffa3942);
            var d := HH(q.d, a, q.b, q.c, x[8], 11, 0x8771f681);
            var c := HH(q.c, d, a, q.b, x[11], 16, 0x6d9d6122);
            var b := HH(q.b, c, d, a, x[14], 23, 0xfde5380c);
            Steps(36, v, x) == Quad(a, b, c, d)
  {
    hide FF, GG, HH, II, Steps;
    FourSteps(32, v, x);
  }

  lemma Group9(v: Quad, q: Quad, x: seq<bv32>)
    requires |x| == 16 && Steps(36, v, x) == q
    ensures var a := HH(q.a, q.b, q.c, q.d, x[1], 4, 0xa4beea44);
            var d := HH(q.d, a, q.b, q.c, x[4], 11, 0x4bdecfa9);
            var c := HH(q.c, d, a, q.b, x[7], 16, 0xf6bb4b60);
            var b := HH(q.b, c, d, a, x[10], 23, 0xbebfbc70);
            Steps(40, v, x) == Quad(a, b, c, d)
  {
    hide FF, GG, HH, II, Steps;
    FourSteps(36, v, x);
  }

  lemma Group10(v: Quad, q: Quad, x: seq<bv32>)
    requires |x| == 16 && Steps(40, v, x) == q
    ensures var a := HH(q.a, q.b, q.c, q.d, x[13], 4, 0x289b7ec6);
            var d := HH(q.d, a, q.b, q.c, x[0], 11, 0xeaa127fa);
            var c := HH(q.c, d, a, q.b, x[3], 16, 0xd4ef3085);
            var b := HH(q.b, c, d, a, x[6], 23, 0x04881d05);
            Steps(44, v, x) == Quad(a, b, c, d)
  {
    hide FF, GG, HH, II, Steps;
    FourSteps(40, v, x);
  }

  lemma Group11(v: Quad, q: Quad, x: seq<bv32>)
    requires |x| == 16 && Steps(44, v, x) == q
    ensures var a := HH(q.a, q.b, q.c, q.d, x[9], 4, 0xd9d4d039);
            var d := HH(q.d, a, q.b, q.c, x[12], 11, 0xe6db99e5);
            var c := HH(q.c, d, a, q.b, x[15], 16, 0x1fa27cf8);
            var b := HH(q.b, c, d, a, x[2], 23, 0xc4ac5665);
            Steps(48, v, x) == Quad(a, b, c, d)
  {
    hide FF, GG, HH, II, Steps;
    FourSteps(44, v, x);
  }

  lemma Group12(v: Quad, q: Quad, x: seq<bv32>)
    requires |x| == 16 && Steps(48, v, x) == q
    ensures var a := II(q.a, q.b, q.c, q.d, x[0], 6, 0xf4292244);
            var d := II(q.d, a, q.b, q.c, x[7], 10, 0x432aff97);
            var c := II(q.c, d, a, q.b, x[14], 15, 0xab9423a7);
            var b := II(q.b, c, d, a, x[5], 21, 0xfc93a039);
            Steps(52, v, x) == Quad(a, b, c, d)
  {
    hide FF, GG, HH, II, Steps;
    FourSteps(48, v, x);
  }

  lemma Group13(v: Quad, q: Quad, x: seq<bv32>)
    requires |x| == 16 && Steps(52, v, x) == q
    ensures var a := II(q.a, q.b, q.c, q.d, x[12], 6, 0x655b59c3);
            var d := II(q.d, a, q.b, q.c, x[3], 10, 0x8f0ccc92);
            var c := II(q.c, d, a, q.b, x[10], 15, 0xffeff47d);
            var b := II(q.b, c, d, a, x[1], 21, 0x85845dd1);
            Steps(56, v, x) == Quad(a, b, c, d)
  {
    hide FF, GG, HH, II, Steps;
    FourSteps(52, v, x);
  }

  lemma Group14(v: Quad, q: Quad, x: seq<bv32>)
    requires |x| == 16 && Steps(56, v, x) == q
    ensures var a := II(q.a, q.b, q.c, q.d, x[8], 6, 0x6fa87e4f);
            var d := II(q.d, a, q.b, q.c, x[15], 10, 0xfe2ce6e0);
            var c := II(q.c, d, a, q.b, x[6], 15, 0xa3014314);
            var b := II(q.b, c, d, a, x[13], 21, 0x4e0811a1);
            Steps(60, v, x) == Quad(a, b, c, d)
  {
    hide FF, GG, HH, II, Steps;
    FourSteps(56, v, x);
  }

  lemma Group15(v: Quad, q: Quad, x: seq<bv32>)
    requires |x| == 16 && Steps(60, v, x) == q
    ensures var a := II(q.a, q.b, q.c, q.d, x[4], 6, 0xf7537e82);
            var d := II(q.d, a, q.b, q.c, x[11], 10, 0xbd3af235);
            var c := II(q.c, d, a, q.b, x[2], 15, 0x2ad7d2bb);
            var b := II(q.b, c, d, a, x[9], 21, 0xeb86d391);
            Steps(64, v, x) == Quad(a, b, c, d)
  {
    hide FF, GG, HH, II, Steps;
    FourSteps(60, v, x);
  }

  /** Round 1. */
  method Round1(ghost v: Quad, x: seq<bv32>, a0: bv32, b0: bv32, c0: bv32, d0: bv32)
    returns (a: bv32, b: bv32, c: bv32, d: bv32)
    requires |x| == 16 && Steps(0, v, x) == Quad(a0, b0, c0, d0)
    ensures Steps(16, v, x) == Quad(a, b, c, d)
  {
    hide FF, GG, HH, II, Steps;
    a, b, c, d := a0, b0, c0, d0;
    Group0(v, Quad(a, b, c, d), x);
    a := FF(a, b, c, d, x[0], 7, 0xd76aa478);
    d := FF(d, a, b, c, x[1], 12, 0xe8c7b756);
    c := FF(c, d, a, b, x[2], 17, 0x242070db);
    b := FF(b, c, d, a, x[3], 22, 0xc1bdceee);
    Group1(v, Quad(a, b, c, d), x);
    a := FF(a, b, c, d, x[4], 7, 0xf57c0faf);
    d := FF(d, a, b, c, x[5], 12, 0x4787c62a);
    c := FF(c, d, a, b, x[6], 17, 0xa8304613);
    b := FF(b, c, d, a, x[7], 22, 0xfd469501);
    Group2(v, Quad(a, b, c, d), x);
    a := FF(a, b, c, d, x[8], 7, 0x698098d8);
    d := FF(d, a, b, c, x[9], 12, 0x8b44f7af);
    c := FF(c, d, a, b, x[10], 17, 0xffff5bb1);
    b := FF(b, c, d, a, x[11], 22, 0x895cd7be);
    Group3(v, Quad(a, b, c, d), x);
    a := FF(a, b, c, d, x[12], 7, 0x6b901122);
    d := FF(d, a, b, c, x[13], 12, 0xfd987193);
    c := FF(c, d, a, b, x[14], 17, 0xa679438e);
    b := FF(b, c, d, a, x[15], 22, 0x49b40821);
  }

  /** Round 2. */
  method Round2(ghost v: Quad, x: seq<bv32>, a0: bv32, b0: bv32, c0: bv32, d0: bv32)
    returns (a: bv32, b: bv32, c: bv32, d: bv32)
    requires |x| == 16 && Steps(16, v, x) == Quad(a0, b0, c0, d0)
    ensures Steps(32, v, x) == Quad(a, b, c, d)
  {
    hide FF, GG, HH, II, Steps;
    a, b, c, d := a0, b0, c0, d0;
    Group4(v, Quad(a, b, c, d), x);
    a := GG(a, b, c, d, x[1], 5, 0xf61e2562);
    d := GG(d, a, b, c, x[6], 9, 0xc040b340);
    c := GG(c, d, a, b, x[11], 14, 0x265e5a51);
    b := GG(b, c, d, a, x[0], 20, 0xe9b6c7aa);
    Group5(v, Quad(a, b, c, d), x);
    a := GG(a, b, c, d, x[5], 5, 0xd62f105d);
    d := GG(d, a, b, c, x[10], 9, 0x02441453);
    c := GG(c, d, a, b, x[15], 14, 0xd8a1e681);
    b := GG(b, c, d, a, x[4], 20, 0xe7d3fbc8);
    Group6(v, Quad(a, b, c, d), x);
    a := GG(a, b, c, d, x[9], 5, 0x21e1cde6);
    d := GG(d, a, b, c, x[14], 9, 0xc33707d6);
    c := GG(c, d, a, b, x[3], 14, 0xf4d50d87);
    b := GG(b, c, d, a, x[8], 20, 0x455a14ed);
    Group7(v, Quad(a, b, c, d), x);
    a := GG(a, b, c, d, x[13], 5, 0xa9e3e905);
    d := GG(d, a, b, c, x[2], 9, 0xfcefa3f8);
    c := GG(c, d, a, b, x[7], 14, 0x676f02d9);
    b := GG(b, c, d, a, x[12], 20, 0x8d2a4c8a);
  }

  /** Round 3. */
  method Round3(ghost v: Quad, x: seq<bv32>, a0: bv32, b0: bv32, c0: bv32, d0: bv32)
    returns (a: bv32, b: bv32, c: bv32, d: bv32)
    requires |x| == 16 && Steps(32, v, x) == Quad(a0, b0, c0, d0)
    ensures Steps(48, v, x) == Quad(a, b, c, d)
  {
    hide FF, GG, HH, II, Steps;
    a, b, c, d := a0, b0, c0, d0;
    Group8(v, Quad(a, b, c, d), x);
    a := HH(a, b, c, d, x[5], 4, 0xfffa3942);
    d := HH(d, a, b, c, x[8], 11, 0x8771f681);
    c := HH(c, d, a, b, x[11], 16, 0x6d9d6122);
    b := HH(b, c, d, a, x[14], 23, 0xfde5380c);
    Group9(v, Quad(a, b, c, d), x);
    a := HH(a, b, c, d, x[1], 4, 0xa4beea44);
    d := HH(d, a, b, c, x[4], 11, 0x4bdecfa9);
    c := HH(c, d, a, b, x[7], 16, 0xf6bb4b60);
    b := HH(b, c, d, a, x[10], 23, 0xbebfbc70);
    Group10(v, Quad(a, b, c, d), x);
    a := HH(a, b, c, d, x[13], 4, 0x289b7ec6);
    d := HH(d, a, b, c, x[0], 11, 0xeaa127fa);
    c := HH(c, d, a, b, x[3], 16, 0xd4ef3085);
    b := HH(b, c, d, a, x[6], 23, 0x04881d05);
    Group11(v, Quad(a, b, c, d), x);
    a := HH(a, b, c, d, x[9], 4, 0xd9d4d039);
    d := HH(d, a, b, c, x[12], 11, 0xe6db99e5);
    c := HH(c, d, a, b, x[15], 16, 0x1fa27cf8);
    b := HH(b, c, d, a, x[2], 23, 0xc4ac5665);
  }

  /** Round 4. */
  method Round4(ghost v: Quad, x: seq<bv32>, a0: bv32, b0: bv32, c0: bv32, d0: bv32)
    returns (a: bv32, b: bv32, c: bv32, d: bv32)
    requires |x| == 16 && Steps(48, v, x) == Quad(a0, b0, c0, d0)
    ensures Steps(64, v, x) == Quad(a, b, c, d)
  {
    hide FF, GG, HH, II, Steps;
    a, b, c, d := a0, b0, c0, d0;
    Group12(v, Quad(a, b, c, d), x);
    a := II(a, b, c, d, x[0], 6, 0xf4292244);
    d := II(d, a, b, c, x[7], 10, 0x432aff97);
    c := II(c, d, a, b, x[14], 15, 0xab9423a7);
    b := II(b, c, d, a, x[5], 21, 0xfc93a039);
    Group13(v, Quad(a, b, c, d), x);
    a := II(a, b, c, d, x[12], 6, 0x655b59c3);
    d := II(d, a, b, c, x[3], 10, 0x8f0ccc92);
    c := II(c, d, a, b, x[10], 15, 0xffeff47d);
    b := II(b, c, d, a, x[1], 21, 0x85845dd1);
    Group14(v, Quad(a, b, c, d), x);
    a := II(a, b, c, d, x[8], 6, 0x6fa87e4f);
    d := II(d, a, b, c, x[15], 10, 0xfe2ce6e0);
    c := II(c, d, a, b, x[6], 15, 0xa3014314);
    b := II(b, c, d, a, x[13], 21, 0x4e0811a1);
    Group15(v, Quad(a, b, c, d), x);
    a := II(a, b, c, d, x[4], 6, 0xf7537e82);
    d := II(d, a, b, c, x[11], 10, 0xbd3af235);
    c := II(c, d, a, b, x[2], 15, 0x2ad7d2bb);
    b := II(b, c, d, a, x[9], 21, 0xeb86d391);
  }
}
