/** The S-box of the source is the one of section 5.1.1 of FIPS 197: the inverse in GF(2^8) under an affine map. Each
    entry goes back through the affine map and is multiplied by its index; sixteen entries make one lemma. */
module AesField {
  import opened AesTables
  import opened AesSpec

  /** Bit i of y selects x times x^i. */
  function Part(x: bv8, y: bv8): bv8 {
    ((y & 1) * x) ^ (((y >> 1) & 1) * XTime(x)) ^ (((y >> 2) & 1) * XTime(XTime(x)))
        ^ (((y >> 3) & 1) * XTime(XTime(XTime(x))))
  }

  /** The product in GF(2^8), all eight bits of y. */
  function Times(x: bv8, y: bv8): bv8 {
    Part(x, y & 0x0f) ^ Part(XTime(XTime(XTime(XTime(x)))), y >> 4)
  }

  function Turn(x: bv8, n: nat): bv8
    requires n < 8
  {
    (x << n) | (x >> (8 - n))
  }

  function Affine(x: bv8): bv8 { x ^ Turn(x, 1) ^ Turn(x, 2) ^ Turn(x, 3) ^ Turn(x, 4) ^ 0x63 }

  function InvAffine(x: bv8): bv8 { Turn(x, 1) ^ Turn(x, 3) ^ Turn(x, 6) ^ 0x05 }

  lemma AffineInverse(x: bv8)
    ensures Affine(InvAffine(x)) == x
  {
  }

  lemma Row0(low: bv8)
    requires low < 16 && low != 0
    ensures Times(0x00 | low, InvAffine(SBox0(low))) == 1
  {
    match low
    case 1 => case 2 => case 3 => case 4 => case 5 => case 6 => case 7 =>
    case 8 => case 9 => case 10 => case 11 => case 12 => case 13 => case 14 => case _ =>
  }

  lemma Row1(low: bv8)
    requires low < 16
    ensures Times(0x10 | low, InvAffine(SBox1(low))) == 1
  {
    match low
    case 0 => case 1 => case 2 => case 3 => case 4 => case 5 => case 6 => case 7 =>
    case 8 => case 9 => case 10 => case 11 => case 12 => case 13 => case 14 => case _ =>
  }

  lemma Row2(low: bv8)
    requires low < 16
    ensures Times(0x20 | low, InvAffine(SBox2(low))) == 1
  {
    match low
    case 0 => case 1 => case 2 => case 3 => case 4 => case 5 => case 6 => case 7 =>
    case 8 => case 9 => case 10 => case 11 => case 12 => case 13 => case 14 => case _ =>
  }

  lemma Row3(low: bv8)
    requires low < 16
    ensures Times(0x30 | low, InvAffine(SBox3(low))) == 1
  {
    match low
    case 0 => case 1 => case 2 => case 3 => case 4 => case 5 => case 6 => case 7 =>
    case 8 => case 9 => case 10 => case 11 => case 12 => case 13 => case 14 => case _ =>
  }

  lemma Row4(low: bv8)
    requires low < 16
    ensures Times(0x40 | low, InvAffine(SBox4(low))) == 1
  {
    match low
    case 0 => case 1 => case 2 => case 3 => case 4 => case 5 => case 6 => case 7 =>
    case 8 => case 9 => case 10 => case 11 => case 12 => case 13 => case 14 => case _ =>
  }

  lemma Row5(low: bv8)
    requires low < 16
    ensures Times(0x50 | low, InvAffine(SBox5(low))) == 1
  {
    match low
    case 0 => case 1 => case 2 => case 3 => case 4 => case 5 => case 6 => case 7 =>
    case 8 => case 9 => case 10 => case 11 => case 12 => case 13 => case 14 => case _ =>
  }

  lemma Row6(low: bv8)
    requires low < 16
    ensures Times(0x60 | low, InvAffine(SBox6(low))) == 1
  {
    match low
    case 0 => case 1 => case 2 => case 3 => case 4 => case 5 => case 6 => case 7 =>
    case 8 => case 9 => case 10 => case 11 => case 12 => case 13 => case 14 => case _ =>
  }

  lemma Row7(low: bv8)
    requires low < 16
    ensures Times(0x70 | low, InvAffine(SBox7(low))) == 1
  {
    match low
    case 0 => case 1 => case 2 => case 3 => case 4 => case 5 => case 6 => case 7 =>
    case 8 => case 9 => case 10 => case 11 => case 12 => case 13 => case 14 => case _ =>
  }

  lemma Row8(low: bv8)
    requires low < 16
    ensures Times(0x80 | low, InvAffine(SBox8(low))) == 1
  {
    match low
    case 0 => case 1 => case 2 => case 3 => case 4 => case 5 => case 6 => case 7 =>
    case 8 => case 9 => case 10 => case 11 => case 12 => case 13 => case 14 => case _ =>
  }

  lemma Row9(low: bv8)
    requires low < 16
    ensures Times(0x90 | low, InvAffine(SBox9(low))) == 1
  {
    match low
    case 0 => case 1 => case 2 => case 3 => case 4 => case 5 => case 6 => case 7 =>
    case 8 => case 9 => case 10 => case 11 => case 12 => case 13 => case 14 => case _ =>
  }

  lemma RowA(low: bv8)
    requires low < 16
    ensures Times(0xa0 | low, InvAffine(SBoxA(low))) == 1
  {
    match low
    case 0 => case 1 => case 2 => case 3 => case 4 => case 5 => case 6 => case 7 =>
    case 8 => case 9 => case 10 => case 11 => case 12 => case 13 => case 14 => case _ =>
  }

  lemma RowB(low: bv8)
    requires low < 16
    ensures Times(0xb0 | low, InvAffine(SBoxB(low))) == 1
  {
    match low
    case 0 => case 1 => case 2 => case 3 => case 4 => case 5 => case 6 => case 7 =>
    case 8 => case 9 => case 10 => case 11 => case 12 => case 13 => case 14 => case _ =>
  }

  lemma RowC(low: bv8)
    requires low < 16
    ensures Times(0xc0 | low, InvAffine(SBoxC(low))) == 1
  {
    match low
    case 0 => case 1 => case 2 => case 3 => case 4 => case 5 => case 6 => case 7 =>
    case 8 => case 9 => case 10 => case 11 => case 12 => case 13 => case 14 => case _ =>
  }

  lemma RowD(low: bv8)
    requires low < 16
    ensures Times(0xd0 | low, InvAffine(SBoxD(low))) == 1
  {
    match low
    case 0 => case 1 => case 2 => case 3 => case 4 => case 5 => case 6 => case 7 =>
    case 8 => case 9 => case 10 => case 11 => case 12 => case 13 => case 14 => case _ =>
  }

  lemma RowE(low: bv8)
    requires low < 16
    ensures Times(0xe0 | low, InvAffine(SBoxE(low))) == 1
  {
    match low
    case 0 => case 1 => case 2 => case 3 => case 4 => case 5 => case 6 => case 7 =>
    case 8 => case 9 => case 10 => case 11 => case 12 => case 13 => case 14 => case _ =>
  }

  lemma RowF(low: bv8)
    requires low < 16
    ensures Times(0xf0 | low, InvAffine(SBoxF(low))) == 1
  {
    match low
    case 0 => case 1 => case 2 => case 3 => case 4 => case 5 => case 6 => case 7 =>
    case 8 => case 9 => case 10 => case 11 => case 12 => case 13 => case 14 => case _ =>
  }

  /** Every byte but zero goes through its inverse, zero through itself. */
  lemma BoxIsInverse(x: bv8)
    ensures exists y: bv8 :: (if x == 0 then y == 0 else Times(x, y) == 1) && SBox(x) == Affine(y)
  {
    hide Times, Affine, InvAffine;
    AffineInverse(SBox(x));
    if x == 0 {
      ZeroStays();
    } else {
      NonzeroInverts(x);
    }
  }

  lemma ZeroStays()
    ensures InvAffine(SBox(0)) == 0
  {
  }

  lemma NonzeroInverts(x: bv8)
    requires x != 0
    ensures Times(x, InvAffine(SBox(x))) == 1
  {
    hide Times, InvAffine, SBox0, SBox1, SBox2, SBox3, SBox4, SBox5, SBox6, SBox7;
    hide SBox8, SBox9, SBoxA, SBoxB, SBoxC, SBoxD, SBoxE, SBoxF;
    var (high, low) := (x >> 4, x & 0x0f);
    match high
    case 0 => Row0(low);
    case 1 => Row1(low);
    case 2 => Row2(low);
    case 3 => Row3(low);
    case 4 => Row4(low);
    case 5 => Row5(low);
    case 6 => Row6(low);
    case 7 => Row7(low);
    case 8 => Row8(low);
    case 9 => Row9(low);
    case 10 => RowA(low);
    case 11 => RowB(low);
    case 12 => RowC(low);
    case 13 => RowD(low);
    case 14 => RowE(low);
    case _ => RowF(low);
  }
}
