/** AES-128 on 16-byte blocks as the source computes it, layer by layer and tied to FIPS 197 by laws on the bytes, and
    the proof that InvCipher undoes Cipher. Byte 4*i + j is state[i][j]: i counts columns, j rows. */
module AesSpec {
  import opened AesTables

  type Block = b: seq<bv8> | |b| == 16 witness seq(16, _ => 0)

  /** Eleven round keys, one after the other. */
  type RoundKeys = w: seq<bv8> | |w| == 176 witness seq(176, _ => 0)

  function Xor(a: Block, b: Block): Block {
    seq(16, k requires 0 <= k < 16 => a[k] ^ b[k])
  }

  function Key(w: RoundKeys, round: nat): Block
    requires round <= 10
  {
    w[16 * round..16 * round + 16]
  }

  function SubBytes(b: Block): Block {
    seq(16, k requires 0 <= k < 16 => SBox(b[k]))
  }

  function InvSubBytes(b: Block): Block {
    seq(16, k requires 0 <= k < 16 => RSBox(b[k]))
  }

  /** Row j moves j columns to the left. */
  function ShiftRows(b: Block): Block {
    [b[0], b[5], b[10], b[15], b[4], b[9], b[14], b[3], b[8], b[13], b[2], b[7], b[12], b[1], b[6], b[11]]
  }

  function InvShiftRows(b: Block): Block {
    [b[0], b[13], b[10], b[7], b[4], b[1], b[14], b[11], b[8], b[5], b[2], b[15], b[12], b[9], b[6], b[3]]
  }

  /** Multiplication by x in GF(2^8) modulo x^8 + x^4 + x^3 + x + 1. */
  function XTime(x: bv8): bv8 {
    (x << 1) ^ (((x >> 7) & 1) * 0x1b)
  }

  /** The macro Multiply: y has at most five bits. */
  function Multiply(x: bv8, y: bv8): bv8 {
    ((y & 1) * x) ^ (((y >> 1) & 1) * XTime(x)) ^ (((y >> 2) & 1) * XTime(XTime(x)))
    ^ (((y >> 3) & 1) * XTime(XTime(XTime(x)))) ^ (((y >> 4) & 1) * XTime(XTime(XTime(XTime(x)))))
  }

  type Column = c: seq<bv8> | |c| == 4 witness [0, 0, 0, 0]

  /** Tmp of MixColumns. */
  function Parity(a: bv8, b: bv8, c: bv8, d: bv8): bv8 { a ^ b ^ c ^ d }

  /** x ^= xtime(x ^ y) ^ t. */
  function Mix(x: bv8, y: bv8, t: bv8): bv8 { x ^ (XTime(x ^ y) ^ t) }

  /** One column of MixColumns with a single xtime per byte. */
  function MixColumn(c: Column): Column {
    var t := Parity(c[0], c[1], c[2], c[3]);
    [Mix(c[0], c[1], t), Mix(c[1], c[2], t), Mix(c[2], c[3], t), Mix(c[3], c[0], t)]
  }

  function InvMixColumn(c: Column): Column {
    [Multiply(c[0], 0x0e) ^ Multiply(c[1], 0x0b) ^ Multiply(c[2], 0x0d) ^ Multiply(c[3], 0x09),
     Multiply(c[0], 0x09) ^ Multiply(c[1], 0x0e) ^ Multiply(c[2], 0x0b) ^ Multiply(c[3], 0x0d),
     Multiply(c[0], 0x0d) ^ Multiply(c[1], 0x09) ^ Multiply(c[2], 0x0e) ^ Multiply(c[3], 0x0b),
     Multiply(c[0], 0x0b) ^ Multiply(c[1], 0x0d) ^ Multiply(c[2], 0x09) ^ Multiply(c[3], 0x0e)]
  }

  function Joined(c0: Column, c1: Column, c2: Column, c3: Column): Block { c0 + c1 + c2 + c3 }

  function MixColumns(b: Block): Block {
    Joined(MixColumn(b[0..4]), MixColumn(b[4..8]), MixColumn(b[8..12]), MixColumn(b[12..16]))
  }

  function InvMixColumns(b: Block): Block {
    Joined(InvMixColumn(b[0..4]), InvMixColumn(b[4..8]), InvMixColumn(b[8..12]), InvMixColumn(b[12..16]))
  }

  // ---------- the columns ----------

  /** Addition in GF(2^8), kept as a function so that long sums stay symbolic. */
  function Add(x: bv8, y: bv8): bv8 { x ^ y }

  function Sum(a: bv8, b: bv8, c: bv8, d: bv8): bv8 { Add(Add(a, b), Add(c, d)) }

  lemma AddComm(x: bv8, y: bv8)
    ensures Add(x, y) == Add(y, x)
  {
  }

  lemma AddAssoc(x: bv8, y: bv8, z: bv8)
    ensures Add(Add(x, y), z) == Add(x, Add(y, z))
  {
  }

  lemma Exchange(a: bv8, b: bv8, c: bv8, d: bv8)
    ensures Add(Add(a, b), Add(c, d)) == Add(Add(a, c), Add(b, d))
  {
    hide Add;
    AddAssoc(a, b, Add(c, d)); AddAssoc(b, c, d); AddComm(b, c); AddAssoc(c, b, d); AddAssoc(a, c, Add(b, d));
  }

  lemma Transpose(a0: bv8, a1: bv8, a2: bv8, a3: bv8, b0: bv8, b1: bv8, b2: bv8, b3: bv8,
                  c0: bv8, c1: bv8, c2: bv8, c3: bv8, d0: bv8, d1: bv8, d2: bv8, d3: bv8)
    ensures Sum(Sum(a0, b0, c0, d0), Sum(a1, b1, c1, d1), Sum(a2, b2, c2, d2), Sum(a3, b3, c3, d3))
         == Sum(Sum(a0, a1, a2, a3), Sum(b0, b1, b2, b3), Sum(c0, c1, c2, c3), Sum(d0, d1, d2, d3))
  {
    hide Add;
    AddSums(a0, b0, c0, d0, a1, b1, c1, d1);
    AddSums(a2, b2, c2, d2, a3, b3, c3, d3);
    AddSums(Add(a0, a1), Add(b0, b1), Add(c0, c1), Add(d0, d1), Add(a2, a3), Add(b2, b3), Add(c2, c3), Add(d2, d3));
  }

  lemma AddSums(a: bv8, b: bv8, c: bv8, d: bv8, e: bv8, f: bv8, g: bv8, h: bv8)
    ensures Add(Sum(a, b, c, d), Sum(e, f, g, h)) == Sum(Add(a, e), Add(b, f), Add(c, g), Add(d, h))
  {
    hide Add;
    Exchange(Add(a, b), Add(c, d), Add(e, f), Add(g, h));
    Exchange(a, b, e, f);
    Exchange(c, d, g, h);
  }

  lemma Rotate(p: bv8, q: bv8, r: bv8, s: bv8)
    ensures Sum(p, q, r, s) == Sum(s, p, q, r)
  {
    hide Add;
    AddComm(Add(p, q), Add(r, s)); AddComm(r, s); Exchange(s, r, p, q); AddComm(r, q);
  }

  // ---------- multiplication ----------

  lemma XTimeLinear(x: bv8, y: bv8)
    ensures XTime(Add(x, y)) == Add(XTime(x), XTime(y))
  {
  }

  lemma Times9(x: bv8)
    ensures Multiply(x, 0x09) == Add(x, XTime(XTime(XTime(x))))
  {
    hide XTime;
  }

  lemma TimesB(x: bv8)
    ensures Multiply(x, 0x0b) == Add(x, Add(XTime(x), XTime(XTime(XTime(x)))))
  {
    hide XTime;
  }

  lemma TimesD(x: bv8)
    ensures Multiply(x, 0x0d) == Add(x, Add(XTime(XTime(x)), XTime(XTime(XTime(x)))))
  {
    hide XTime;
  }

  lemma TimesE(x: bv8)
    ensures Multiply(x, 0x0e) == Add(XTime(x), Add(XTime(XTime(x)), XTime(XTime(XTime(x)))))
  {
    hide XTime;
  }

  lemma Constants(x: bv8)
    ensures Multiply(x, 0x09) == Add(x, XTime(XTime(XTime(x))))
    ensures Multiply(x, 0x0b) == Add(x, Add(XTime(x), XTime(XTime(XTime(x)))))
    ensures Multiply(x, 0x0d) == Add(x, Add(XTime(XTime(x)), XTime(XTime(XTime(x)))))
    ensures Multiply(x, 0x0e) == Add(XTime(x), Add(XTime(XTime(x)), XTime(XTime(XTime(x)))))
  {
    hide Multiply, Add, XTime;
    Times9(x); TimesB(x); TimesD(x); TimesE(x);
  }

  /** The four coefficients of InvMixColumns. */
  predicate Coefficient(k: bv8) { k == 0x0e || k == 0x0b || k == 0x0d || k == 0x09 }

  lemma MultiplyLinear(x: bv8, y: bv8, k: bv8)
    requires Coefficient(k)
    ensures Multiply(Add(x, y), k) == Add(Multiply(x, k), Multiply(y, k))
  {
    hide XTime, Multiply, Add;
    var (x1, x2, x3) := (XTime(x), XTime(XTime(x)), XTime(XTime(XTime(x))));
    var (y1, y2, y3) := (XTime(y), XTime(XTime(y)), XTime(XTime(XTime(y))));
    XTimeLinear(x, y); XTimeLinear(x1, y1); XTimeLinear(x2, y2);
    Constants(x); Constants(y); Constants(Add(x, y));
    if k == 0x0e { Exchange(x2, y2, x3, y3); Exchange(x1, y1, Add(x2, x3), Add(y2, y3)); }
    else if k == 0x0b { Exchange(x1, y1, x3, y3); Exchange(x, y, Add(x1, x3), Add(y1, y3)); }
    else if k == 0x0d { Exchange(x2, y2, x3, y3); Exchange(x, y, Add(x2, x3), Add(y2, y3)); }
    else { Exchange(x, y, x3, y3); }
  }

  lemma MultiplySum(p: bv8, q: bv8, r: bv8, s: bv8, k: bv8)
    requires Coefficient(k)
    ensures Multiply(Sum(p, q, r, s), k) == Sum(Multiply(p, k), Multiply(q, k), Multiply(r, k), Multiply(s, k))
  {
    hide Multiply, Add;
    MultiplyLinear(p, q, k); MultiplyLinear(r, s, k); MultiplyLinear(Add(p, q), Add(r, s), k);
  }

  // One byte's way through MixColumns and back, in powers of x: a1 is x*a, a2 is x*x*a and so on.

  lemma Diagonal(a: bv8, a1: bv8, a2: bv8, a3: bv8, a4: bv8)
    ensures Sum(Add(a2, Add(a3, a4)), Add(a, Add(a1, a3)), Add(a, Add(a2, a3)), Add(Add(a1, a4), Add(a, a3))) == a
  {
  }

  lemma OffDiagonal1(a: bv8, a1: bv8, a2: bv8, a3: bv8, a4: bv8)
    ensures Sum(Add(Add(a2, Add(a3, a4)), Add(a1, Add(a2, a3))), Add(a1, Add(a2, a4)), Add(a, Add(a2, a3)),
                Add(a, a3)) == 0
  {
  }

  lemma OffDiagonal2(a: bv8, a1: bv8, a2: bv8, a3: bv8, a4: bv8)
    ensures Sum(Add(a1, Add(a2, a3)), Add(Add(a1, Add(a2, a4)), Add(a, Add(a1, a3))), Add(a1, Add(a3, a4)),
                Add(a, a3)) == 0
  {
  }

  lemma OffDiagonal3(a: bv8, a1: bv8, a2: bv8, a3: bv8, a4: bv8)
    ensures Sum(Add(a1, Add(a2, a3)), Add(a, Add(a1, a3)), Add(Add(a1, Add(a3, a4)), Add(a, Add(a2, a3))),
                Add(a1, a4)) == 0
  {
    FrontHalf(a, a1, a2, a3); BackHalf(a, a1, a2, a3, a4);
    hide Add;
    Cancel(Add(a, a2));
  }

  lemma FrontHalf(a: bv8, a1: bv8, a2: bv8, a3: bv8)
    ensures Add(Add(a1, Add(a2, a3)), Add(a, Add(a1, a3))) == Add(a, a2)
  {
  }

  lemma BackHalf(a: bv8, a1: bv8, a2: bv8, a3: bv8, a4: bv8)
    ensures Add(Add(Add(a1, Add(a3, a4)), Add(a, Add(a2, a3))), Add(a1, a4)) == Add(a, a2)
  {
  }

  lemma Cancel(x: bv8)
    ensures Add(x, x) == 0
  {
  }

  /** The columns of the product of both matrices: one on the diagonal, zero elsewhere. */
  lemma MatrixProduct(a: bv8)
    ensures var (a1, q) := (XTime(a), Add(XTime(a), a));
            && Sum(Multiply(a1, 0x0e), Multiply(a, 0x0b), Multiply(a, 0x0d), Multiply(q, 0x09)) == a
            && Sum(Multiply(q, 0x0e), Multiply(a1, 0x0b), Multiply(a, 0x0d), Multiply(a, 0x09)) == 0
            && Sum(Multiply(a, 0x0e), Multiply(q, 0x0b), Multiply(a1, 0x0d), Multiply(a, 0x09)) == 0
            && Sum(Multiply(a, 0x0e), Multiply(a, 0x0b), Multiply(q, 0x0d), Multiply(a1, 0x09)) == 0
  {
    hide XTime, Multiply, Add, Sum;
    var a1 := XTime(a);
    var (a2, a3, a4) := (XTime(a1), XTime(XTime(a1)), XTime(XTime(XTime(a1))));
    MultiplyLinear(a1, a, 0x0e); MultiplyLinear(a1, a, 0x0b); MultiplyLinear(a1, a, 0x0d); MultiplyLinear(a1, a, 0x09);
    Constants(a); Constants(a1);
    Diagonal(a, a1, a2, a3, a4);
    OffDiagonal1(a, a1, a2, a3, a4); OffDiagonal2(a, a1, a2, a3, a4); OffDiagonal3(a, a1, a2, a3, a4);
  }

  /** The source's single-xtime form of a mixed byte. */
  function Mixed(a: bv8, b: bv8, c: bv8, d: bv8): bv8 { Mix(a, b, Parity(a, b, c, d)) }

  function Unmixed(a: bv8, b: bv8, c: bv8, d: bv8): bv8 {
    Multiply(a, 0x0e) ^ Multiply(b, 0x0b) ^ Multiply(c, 0x0d) ^ Multiply(d, 0x09)
  }

  lemma MixIsSum(x: bv8, y: bv8, t: bv8)
    ensures Mix(x, y, t) == Add(x, Add(XTime(Add(x, y)), t))
  {
    hide XTime;
  }

  lemma ParityIsSum(a: bv8, b: bv8, c: bv8, d: bv8)
    ensures Parity(a, b, c, d) == Sum(a, b, c, d)
  {
  }

  lemma OneCancels(a: bv8, b: bv8, p: bv8, q: bv8)
    ensures Add(a, Add(p, Add(Add(a, b), q))) == Add(p, Add(b, q))
  {
  }

  lemma MixedIs(a: bv8, b: bv8, c: bv8, d: bv8)
    ensures Mixed(a, b, c, d) == Sum(XTime(a), Add(XTime(b), b), c, d)
  {
    hide XTime, Add, Mix, Parity;
    MixIsSum(a, b, Parity(a, b, c, d));
    ParityIsSum(a, b, c, d);
    XTimeLinear(a, b);
    var (p, q) := (Add(XTime(a), XTime(b)), Add(c, d));
    OneCancels(a, b, p, q);
    AddAssoc(p, b, q); AddAssoc(XTime(a), XTime(b), b);
  }

  lemma UnmixedIs(a: bv8, b: bv8, c: bv8, d: bv8)
    ensures Unmixed(a, b, c, d) == Sum(Multiply(a, 0x0e), Multiply(b, 0x0b), Multiply(c, 0x0d), Multiply(d, 0x09))
  {
    hide Multiply;
  }

  lemma Alone(a: bv8)
    ensures Sum(a, 0, 0, 0) == a
  {
  }

  /** InvMixColumns recovers the first byte of a mixed column; the others follow by rotation. */
  lemma UnmixedMixed(a: bv8, b: bv8, c: bv8, d: bv8)
    ensures Unmixed(Mixed(a, b, c, d), Mixed(b, c, d, a), Mixed(c, d, a, b), Mixed(d, a, b, c)) == a
  {
    hide Unmixed, Mixed, Multiply, XTime, Sum, Add, Coefficient;
    MixedIs(a, b, c, d); MixedIs(b, c, d, a); MixedIs(c, d, a, b); MixedIs(d, a, b, c);
    UnmixedIs(Mixed(a, b, c, d), Mixed(b, c, d, a), Mixed(c, d, a, b), Mixed(d, a, b, c));
    var (qa, qb, qc, qd) := (Add(XTime(a), a), Add(XTime(b), b), Add(XTime(c), c), Add(XTime(d), d));
    Rotate(XTime(b), qc, d, a);
    Rotate(XTime(c), qd, a, b); Rotate(b, XTime(c), qd, a);
    Rotate(qa, b, c, XTime(d));
    AllCoefficients();
    MultiplySum(XTime(a), qb, c, d, 0x0e);
    MultiplySum(a, XTime(b), qc, d, 0x0b);
    MultiplySum(a, b, XTime(c), qd, 0x0d);
    MultiplySum(qa, b, c, XTime(d), 0x09);
    Transpose(Multiply(XTime(a), 0x0e), Multiply(a, 0x0b), Multiply(a, 0x0d), Multiply(qa, 0x09),
              Multiply(qb, 0x0e), Multiply(XTime(b), 0x0b), Multiply(b, 0x0d), Multiply(b, 0x09),
              Multiply(c, 0x0e), Multiply(qc, 0x0b), Multiply(XTime(c), 0x0d), Multiply(c, 0x09),
              Multiply(d, 0x0e), Multiply(d, 0x0b), Multiply(qd, 0x0d), Multiply(XTime(d), 0x09));
    MatrixProduct(a); MatrixProduct(b); MatrixProduct(c); MatrixProduct(d); Alone(a);
  }

  lemma AllCoefficients()
    ensures Coefficient(0x0e) && Coefficient(0x0b) && Coefficient(0x0d) && Coefficient(0x09)
  {
  }

  /** The xtime trick is the matrix product of section 5.1.3 of FIPS 197. */
  lemma MixedIsProduct(a: bv8, b: bv8, c: bv8, d: bv8)
    ensures Mixed(a, b, c, d) == Sum(Multiply(a, 2), Multiply(b, 3), c, d)
  {
    hide Mixed, Add, XTime, Multiply;
    MixedIs(a, b, c, d);
    TwoAndThree(a); TwoAndThree(b);
  }

  lemma TwoAndThree(x: bv8)
    ensures Multiply(x, 2) == XTime(x) && Multiply(x, 3) == Add(XTime(x), x)
  {
    hide XTime;
  }

  // ---------- the layers ----------

  lemma ColumnInverse(c: Column)
    ensures InvMixColumn(MixColumn(c)) == c
  {
    hide Multiply, XTime;
    MixColumnIs(c);
    hide MixColumn;
    var m := MixColumn(c);
    UnmixedMixed(c[0], c[1], c[2], c[3]);
    UnmixedMixed(c[1], c[2], c[3], c[0]);
    UnmixedMixed(c[2], c[3], c[0], c[1]);
    UnmixedMixed(c[3], c[0], c[1], c[2]);
    InvMixColumnIs(m);
    hide InvMixColumn, Mixed, Unmixed;
    assert InvMixColumn(m) == c;
  }

  lemma MixColumnIs(c: Column)
    ensures MixColumn(c) == [Mixed(c[0], c[1], c[2], c[3]), Mixed(c[1], c[2], c[3], c[0]),
                             Mixed(c[2], c[3], c[0], c[1]), Mixed(c[3], c[0], c[1], c[2])]
  {
    hide Mix, Parity;
    ParityTurns(c[0], c[1], c[2], c[3]); ParityTurns(c[1], c[2], c[3], c[0]); ParityTurns(c[2], c[3], c[0], c[1]);
  }

  lemma ParityTurns(a: bv8, b: bv8, c: bv8, d: bv8)
    ensures Parity(a, b, c, d) == Parity(b, c, d, a)
  {
  }

  lemma InvMixColumnIs(c: Column)
    ensures InvMixColumn(c) == [Unmixed(c[0], c[1], c[2], c[3]), Unmixed(c[1], c[2], c[3], c[0]),
                                Unmixed(c[2], c[3], c[0], c[1]), Unmixed(c[3], c[0], c[1], c[2])]
  {
    hide Multiply;
  }

  lemma MixColumnsInverse(b: Block)
    ensures InvMixColumns(MixColumns(b)) == b
  {
    hide MixColumn, InvMixColumn;
    var m := MixColumns(b);
    assert m[0..4] == MixColumn(b[0..4]) && m[4..8] == MixColumn(b[4..8]);
    assert m[8..12] == MixColumn(b[8..12]) && m[12..16] == MixColumn(b[12..16]);
    ColumnInverse(b[0..4]); ColumnInverse(b[4..8]); ColumnInverse(b[8..12]); ColumnInverse(b[12..16]);
  }

  /** Section 5.1.2 of FIPS 197: row j of column i comes from column i + j. */
  lemma ShiftRowsByIndex(b: Block, i: nat, j: nat)
    requires i < 4 && j < 4
    ensures ShiftRows(b)[4 * i + j] == b[4 * ((i + j) % 4) + j]
  {
  }

  lemma ShiftRowsInverse(b: Block)
    ensures InvShiftRows(ShiftRows(b)) == b
  {
  }

  lemma SubBytesInverse(b: Block)
    ensures InvSubBytes(SubBytes(b)) == b
  {
    hide SBox, RSBox;
    forall k: nat | k < 16 ensures RSBox(SBox(b[k])) == b[k] {
      BoxInverse(b[k]);
    }
  }

  lemma XorInverse(a: Block, b: Block)
    ensures Xor(Xor(a, b), b) == a
  {
    forall k: nat | k < 16 ensures (a[k] ^ b[k]) ^ b[k] == a[k] {
      XorTwice(a[k], b[k]);
    }
  }

  lemma XorTwice(x: bv8, y: bv8)
    ensures (x ^ y) ^ y == x
  {
  }

  // ---------- the cipher ----------

  /** The state after the given number of full rounds. */
  function Rounds(b: Block, w: RoundKeys, n: nat): Block
    requires n <= 9
  {
    if n == 0 then Xor(b, Key(w, 0))
    else Xor(MixColumns(ShiftRows(SubBytes(Rounds(b, w, n - 1)))), Key(w, n))
  }

  /** FIPS 197, section 5.1. */
  function Cipher(b: Block, w: RoundKeys): Block {
    Xor(ShiftRows(SubBytes(Rounds(b, w, 9))), Key(w, 10))
  }

  /** The state of the inverse cipher before it undoes the given round. */
  function InvRounds(b: Block, w: RoundKeys, n: nat): Block
    requires 1 <= n <= 10
    decreases 10 - n
  {
    if n == 10 then Xor(b, Key(w, 10))
    else InvMixColumns(Xor(InvSubBytes(InvShiftRows(InvRounds(b, w, n + 1))), Key(w, n)))
  }

  /** FIPS 197, section 5.3. */
  function InvCipher(b: Block, w: RoundKeys): Block {
    Xor(InvSubBytes(InvShiftRows(InvRounds(b, w, 1))), Key(w, 0))
  }

  /** Round by round the inverse cipher meets the states of the cipher again. */
  lemma {:induction false} RoundsMeet(b: Block, w: RoundKeys, n: nat)
    requires 1 <= n <= 10
    ensures InvRounds(Cipher(b, w), w, n) == ShiftRows(SubBytes(Rounds(b, w, n - 1)))
    decreases 10 - n
  {
    hide Xor, MixColumns, InvMixColumns, ShiftRows, InvShiftRows, SubBytes, InvSubBytes, Key;
    if n == 10 {
      XorInverse(ShiftRows(SubBytes(Rounds(b, w, 9))), Key(w, 10));
    } else {
      RoundsMeet(b, w, n + 1);
      ShiftRowsInverse(SubBytes(Rounds(b, w, n)));
      SubBytesInverse(Rounds(b, w, n));
      XorInverse(MixColumns(ShiftRows(SubBytes(Rounds(b, w, n - 1)))), Key(w, n));
      MixColumnsInverse(ShiftRows(SubBytes(Rounds(b, w, n - 1))));
    }
  }

  /** InvCipher undoes Cipher for every block and every schedule of round keys. */
  lemma CipherInverse(b: Block, w: RoundKeys)
    ensures InvCipher(Cipher(b, w), w) == b
  {
    hide Xor, Cipher, ShiftRows, InvShiftRows, SubBytes, InvSubBytes, Key, InvRounds;
    RoundsMeet(b, w, 1);
    ShiftRowsInverse(SubBytes(Rounds(b, w, 0)));
    SubBytesInverse(Rounds(b, w, 0));
    XorInverse(b, Key(w, 0));
  }

  // ---------- the key schedule ----------

  /** The round constants 1 to 10 of the source's table. */
  function Rcon(i: nat): bv8
    requires 1 <= i <= 10
  {
    match i
    case 1 => 0x01
    case 2 => 0x02
    case 3 => 0x04
    case 4 => 0x08
    case 5 => 0x10
    case 6 => 0x20
    case 7 => 0x40
    case 8 => 0x80
    case 9 => 0x1b
    case _ => 0x36
  }

  /** Every round constant is x times the one before it in GF(2^8). */
  lemma RconIsPower(i: nat)
    requires 1 <= i < 10
    ensures Rcon(1) == 1 && Rcon(i + 1) == XTime(Rcon(i))
  {
  }

  type Word = c: seq<bv8> | |c| == 4 witness [0, 0, 0, 0]

  function WordAt(w: seq<bv8>, i: nat): Word
    requires 4 * i + 4 <= |w|
  {
    w[4 * i..4 * i + 4]
  }

  function XorWord(a: Word, b: Word): Word { [a[0] ^ b[0], a[1] ^ b[1], a[2] ^ b[2], a[3] ^ b[3]] }

  function RotWord(a: Word): Word { [a[1], a[2], a[3], a[0]] }

  function SubWord(a: Word): Word { [SBox(a[0]), SBox(a[1]), SBox(a[2]), SBox(a[3])] }

  /** What is added to the word four places back: section 5.2 of FIPS 197 for Nk = 4. */
  function Temp(previous: Word, i: nat): Word
    requires 4 <= i < 44
  {
    if i % 4 == 0 then XorWord(SubWord(RotWord(previous)), [Rcon(i / 4), 0, 0, 0]) else previous
  }

  ghost predicate FollowsRule(w: seq<bv8>, i: nat)
    requires 4 <= i < 44 && 4 * i + 4 <= |w|
  {
    WordAt(w, i) == XorWord(WordAt(w, i - 4), Temp(WordAt(w, i - 1), i))
  }

  /** w starts with the key and every later word follows the recurrence. */
  ghost predicate IsSchedule(w: RoundKeys, key: Block) {
    && w[..16] == key
    && forall i: nat | 4 <= i < 44 :: FollowsRule(w, i)
  }

  /** A key has at most one schedule. */
  lemma ScheduleUnique(v: RoundKeys, w: RoundKeys, key: Block)
    requires IsSchedule(v, key) && IsSchedule(w, key)
    ensures v == w
  {
    SameWords(v, w, key, 44);
    assert v == v[..176] && w == w[..176];
  }

  lemma {:induction false} SameWords(v: RoundKeys, w: RoundKeys, key: Block, i: nat)
    requires IsSchedule(v, key) && IsSchedule(w, key) && 4 <= i <= 44
    ensures v[..4 * i] == w[..4 * i]
    decreases i
  {
    hide SubWord, XorWord, RotWord, Temp;
    if i > 4 {
      SameWords(v, w, key, i - 1);
      assert FollowsRule(v, i - 1) && FollowsRule(w, i - 1);
      PrefixWord(v, w, i - 1, i - 2); PrefixWord(v, w, i - 1, i - 5);
      assert v[..4 * i] == v[..4 * (i - 1)] + WordAt(v, i - 1);
      assert w[..4 * i] == w[..4 * (i - 1)] + WordAt(w, i - 1);
    }
  }

  lemma PrefixWord(v: RoundKeys, w: RoundKeys, n: nat, i: nat)
    requires n <= 44 && v[..4 * n] == w[..4 * n] && i < n
    ensures WordAt(v, i) == WordAt(w, i)
  {
    assert WordAt(v, i) == v[..4 * n][4 * i..4 * i + 4];
  }

  /** The first n words of the schedule, as the source's loop builds them. */
  function Expand(key: Block, n: nat): (w: seq<bv8>)
    requires 4 <= n <= 44
    ensures |w| == 4 * n
  {
    if n == 4 then key
    else
      var w := Expand(key, n - 1);
      w + XorWord(WordAt(w, n - 5), Temp(WordAt(w, n - 2), n - 1))
  }

  function Schedule(key: Block): RoundKeys { Expand(key, 44) }

  lemma ExpandGrows(key: Block, n: nat)
    requires 4 < n <= 44
    ensures Expand(key, n)[..4 * (n - 1)] == Expand(key, n - 1)
  {
    hide XorWord, Temp;
    var w := Expand(key, n - 1);
    var x := XorWord(WordAt(w, n - 5), Temp(WordAt(w, n - 2), n - 1));
    assert Expand(key, n) == w + x;
    assert (w + x)[..|w|] == w;
  }

  lemma {:induction false} ExpandPrefix(key: Block, n: nat, m: nat)
    requires 4 <= n <= m <= 44
    ensures Expand(key, m)[..4 * n] == Expand(key, n)
    decreases m
  {
    hide Expand;
    if n < m {
      ExpandPrefix(key, n, m - 1);
      ExpandGrows(key, m);
      assert Expand(key, m)[..4 * n] == Expand(key, m)[..4 * (m - 1)][..4 * n];
    }
  }

  /** Round r uses words 4r to 4r + 3 of the schedule, one to a column. */
  lemma KeyWords(w: RoundKeys, r: nat, i: nat)
    requires r <= 10 && i < 4
    ensures Key(w, r)[4 * i..4 * i + 4] == WordAt(w, 4 * r + i)
  {
    var at := 16 * r;
    assert 4 * (4 * r + i) == at + 4 * i;
    StretchWithin(w, at, at + 16, 4 * i, 4 * i + 4);
  }

  lemma StretchWithin(s: seq<bv8>, lo: nat, hi: nat, i: nat, j: nat)
    requires lo <= hi <= |s| && i <= j <= hi - lo
    ensures s[lo..hi][i..j] == s[lo + i..lo + j]
  {
    var (x, y) := (s[lo..hi][i..j], s[lo + i..lo + j]);
    forall k | 0 <= k < j - i ensures x[k] == y[k] {}
    assert x == y;
  }

  /** The first round key is the key itself. */
  lemma FirstKey(key: Block)
    ensures Key(Schedule(key), 0) == key
  {
    ScheduleIsTheSchedule(Schedule(key), key);
    hide Schedule;
    SixteenFirst(Schedule(key), key);
  }

  lemma SixteenFirst(w: RoundKeys, key: Block)
    requires w[..16] == key
    ensures Key(w, 0) == key
  {
    assert w[0..16] == w[..16];
  }

  /** The schedule is the one sequence that the recurrence of the standard allows. */
  lemma ScheduleIsTheSchedule(w: RoundKeys, key: Block)
    ensures IsSchedule(w, key) <==> w == Schedule(key)
  {
    var s := Schedule(key);
    ExpandPrefix(key, 4, 44);
    forall i: nat | 4 <= i < 44 ensures FollowsRule(s, i) {
      StepFollows(key, i);
    }
    if IsSchedule(w, key) {
      ScheduleUnique(w, s, key);
    }
  }

  lemma StepFollows(key: Block, i: nat)
    requires 4 <= i < 44
    ensures FollowsRule(Schedule(key), i)
  {
    hide XorWord, Temp;
    var (s, p) := (Schedule(key), Expand(key, i));
    ExpandPrefix(key, i, 44); ExpandPrefix(key, i + 1, 44);
    var q := Expand(key, i + 1);
    assert WordAt(s, i) == q[4 * i..] == XorWord(WordAt(p, i - 4), Temp(WordAt(p, i - 1), i));
    assert WordAt(s, i - 4) == s[..4 * i][4 * (i - 4)..4 * (i - 4) + 4] == WordAt(p, i - 4);
    assert WordAt(s, i - 1) == s[..4 * i][4 * (i - 1)..4 * (i - 1) + 4] == WordAt(p, i - 1);
  }
}
