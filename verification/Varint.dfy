/** Base-128 varints: the minimal form the encoder emits, and the two readers of the decoder,
    stated on byte sequences. The stream methods of OStream and IStream are proved equal to these. */
module Varint {
  import opened Prelude

  function Pow128(n: nat): (p: nat)
    ensures p >= 1
  {
    if n == 0 then 1 else 128 * Pow128(n - 1)
  }

  /** The minimal base-128 form: seven bits a byte, least significant group first. */
  function Minimal(v: nat): (bs: bytes)
    ensures |bs| >= 1
  {
    if v < 128 then [v] else [128 + v % 128] + Minimal(v / 128)
  }

  /** The number a group sequence stands for, continuation bits dropped. */
  function Leb(bs: bytes): nat {
    if bs == [] then 0 else bs[0] % 128 + 128 * Leb(bs[1..])
  }

  /** How many leading bytes carry the continuation bit. */
  function Scan(bs: bytes): (n: nat)
    ensures n <= |bs|
    ensures n < |bs| ==> bs[n] < 128
    ensures forall i | 0 <= i < n :: bs[i] >= 128
  {
    if bs == [] || bs[0] < 128 then 0 else 1 + Scan(bs[1..])
  }

  /** One complete varint: continuation bits on all bytes but the last. */
  ghost predicate Complete(bs: bytes) {
    Scan(bs) + 1 == |bs|
  }

  /** pb_decode_varint: at most ten bytes, the tenth 0 or 1. */
  function Read64(bs: bytes): (r: Option<(nat, bytes)>)
    ensures r.Some? ==> |r.value.1| < |bs|
  {
    var n := Scan(bs) + 1;
    if n > |bs| || n > 10 || (n == 10 && bs[9] > 1) then None
    else Some((Leb(bs[..n]), bs[n..]))
  }

  /** The low 32 bits kept by the short reader: four full groups and the low half of the fifth. */
  function Low32(bs: bytes): nat {
    if |bs| <= 4 then Leb(bs) else Leb(bs[..4]) + 0x1000_0000 * (bs[4] as int % 16)
  }

  /** What the short reader accepts in byte k >= 5: a zero group, or sign extension of a negative value. */
  predicate Extension(low: nat, k: nat, b: byte) {
    b % 128 == 0 || (low >= U31 && b == if k < 9 then 255 else 1)
  }

  /** What the short reader accepts as a whole. */
  predicate Short(bs: bytes) {
    && |bs| <= 10
    && (|bs| >= 5 ==> bs[4] % 128 < 16 || bs[4] % 128 >= 120)
    && (forall k | 5 <= k < |bs| :: Extension(Low32(bs), k, bs[k]))
  }

  /** pb_decode_varint32. */
  function Read32(bs: bytes): (r: Option<(nat, bytes)>)
    ensures r.Some? ==> |r.value.1| < |bs|
  {
    var n := Scan(bs) + 1;
    if n > |bs| || !Short(bs[..n]) then None
    else Some((Low32(bs[..n]), bs[n..]))
  }

  // ---------- values ----------

  lemma {:induction false} LebBound(bs: bytes)
    ensures Leb(bs) < Pow128(|bs|)
  {
    if bs != [] { LebBound(bs[1..]); }
  }

  lemma {:induction false} LebSplit(bs: bytes, n: nat)
    requires n <= |bs|
    ensures Leb(bs) == Leb(bs[..n]) + Pow128(n) * Leb(bs[n..])
  {
    if n == 0 {
      assert bs[0..] == bs && bs[..0] == [];
    } else {
      LebSplit(bs[1..], n - 1);
      assert bs[..n][1..] == bs[1..][..n-1] && bs[1..][n-1..] == bs[n..];
      Scale(Leb(bs[1..][..n-1]), Pow128(n - 1), Leb(bs[n..]));
    }
  }

  lemma Scale(a: nat, p: nat, b: nat)
    ensures 128 * (a + p * b) == 128 * a + (128 * p) * b
  {
  }

  /** A varint accepted by the 64-bit reader has at most ten bytes and stands for a 64-bit value; the rest
      is untouched. */
  lemma Read64Bound(bs: bytes)
    requires Read64(bs).Some?
    ensures Read64(bs).value.0 < U64
    ensures var rest := Read64(bs).value.1; |bs| - 10 <= |rest| < |bs| && rest == bs[|bs| - |rest|..]
  {
    var n := Scan(bs) + 1;
    var ds := bs[..n];
    assert Pow128(9) == U63 by { Pow128Table(); }
    if n == 10 {
      LebSplit(ds, 9); LebBound(ds[..9]);
      assert ds[9..] == [bs[9]] && Leb(ds[9..]) == bs[9];
    } else {
      LebBound(ds); Pow128Mono(n, 9);
    }
  }

  lemma Pow128Table()
    ensures Pow128(4) == 0x1000_0000 && Pow128(5) == 0x8_0000_0000 && Pow128(9) == U63
  {
    assert Pow128(2) == 0x4000;
    assert Pow128(4) == 0x1000_0000;
    assert Pow128(6) == 128 * Pow128(5);
    assert Pow128(7) == 128 * Pow128(6);
  }

  lemma {:induction false} Pow128Mono(a: nat, b: nat)
    requires a <= b
    ensures Pow128(a) <= Pow128(b)
  {
    if a < b { Pow128Mono(a, b - 1); }
  }

  // ---------- the minimal form ----------

  lemma {:induction false} MinimalComplete(v: nat)
    ensures Complete(Minimal(v)) && Leb(Minimal(v)) == v
  {
    if v >= 128 {
      MinimalComplete(v / 128);
      assert Minimal(v)[1..] == Minimal(v / 128);
    }
  }

  /** No complete varint with the same value is shorter. */
  lemma {:induction false} MinimalShortest(bs: bytes)
    requires Complete(bs)
    ensures |Minimal(Leb(bs))| <= |bs|
  {
    if |bs| > 1 {
      assert Complete(bs[1..]);
      MinimalShortest(bs[1..]);
      assert Leb(bs) / 128 == Leb(bs[1..]);
    }
  }

  lemma {:induction false} MinimalLength(v: nat, n: nat)
    requires v < Pow128(n) && n > 0
    ensures |Minimal(v)| <= n
  {
    if v >= 128 {
      assert Pow128(1) == 128;
      MinimalLength(v / 128, n - 1);
    }
  }

  /** The longest form of a 64-bit value is ten bytes, its tenth byte 1; that of a 32-bit value is five bytes. */
  lemma Minimal64(v: nat)
    requires v < U64
    ensures |Minimal(v)| <= 10 && (v < U32 ==> |Minimal(v)| <= 5)
    ensures |Minimal(v)| == 10 ==> Minimal(v)[9] == 1
  {
    hide Minimal, Leb;
    Pow128Table();
    MinimalLength(v, 10);
    if v < U32 { MinimalLength(v, 5); }
    MinimalComplete(v);
    if |Minimal(v)| == 10 {
      MinimalLastNonzero(v);
      TenthByte(Minimal(v));
    }
  }

  lemma TenthByte(bs: bytes)
    requires Complete(bs) && |bs| == 10 && Leb(bs) < U64 && bs[9] != 0
    ensures bs[9] == 1
  {
    hide Scan;
    Pow128Table();
    LebSplit(bs, 9);
    assert bs[9..] == [bs[9]] && Leb(bs[9..]) == bs[9];
  }

  lemma {:induction false} MinimalLastNonzero(v: nat)
    ensures |Minimal(v)| > 1 ==> Minimal(v)[|Minimal(v)| - 1] != 0
  {
    if v >= 128 { MinimalLastNonzero(v / 128); }
  }

  // ---------- both readers stop at the varint's own end ----------

  lemma {:induction false} ScanAppend(a: bytes, b: bytes)
    requires Scan(a) < |a|
    ensures Scan(a + b) == Scan(a)
  {
    assert (a + b)[0] == a[0];
    if a[0] >= 128 {
      assert (a + b)[1..] == a[1..] + b;
      ScanAppend(a[1..], b);
    }
  }

  lemma Read64Append(a: bytes, b: bytes)
    requires Read64(a).Some?
    ensures Read64(a + b) == Some((Read64(a).value.0, Read64(a).value.1 + b))
  {
    ScanAppend(a, b);
    var n := Scan(a) + 1;
    assert (a + b)[..n] == a[..n] && (a + b)[n..] == a[n..] + b;
  }

  lemma Read32Append(a: bytes, b: bytes)
    requires Read32(a).Some?
    ensures Read32(a + b) == Some((Read32(a).value.0, Read32(a).value.1 + b))
  {
    ScanAppend(a, b);
    var n := Scan(a) + 1;
    assert (a + b)[..n] == a[..n] && (a + b)[n..] == a[n..] + b;
  }

  // ---------- writer and readers ----------

  /** pb_decode_varint undoes pb_encode_varint on every 64-bit value. */
  lemma Read64Minimal(v: nat, tail: bytes)
    requires v < U64
    ensures Read64(Minimal(v) + tail) == Some((v, tail))
  {
    Minimal64(v);
    MinimalComplete(v);
    var bs := Minimal(v);
    assert bs[..|bs|] == bs;
    Read64Append(bs, tail);
    assert [] + tail == tail;
  }

  /** The short reader refines the long one: same bytes consumed, value truncated to 32 bits. */
  lemma ShortRefinesLong(bs: bytes)
    requires Read32(bs).Some?
    ensures Read64(bs).Some?
    ensures Read64(bs).value.1 == Read32(bs).value.1
    ensures Read64(bs).value.0 % U32 == Read32(bs).value.0
  {
    var n := Scan(bs) + 1;
    var ds := bs[..n];
    if n == 10 { assert Extension(Low32(ds), 9, ds[9]); }
    LowIsRemainder(ds);
  }

  lemma LowIsRemainder(ds: bytes)
    ensures Leb(ds) % U32 == Low32(ds)
  {
    hide Leb, Pow128;
    if |ds| <= 4 {
      Pow128Table();
      LebBound(ds); Pow128Mono(|ds|, 4);
    } else {
      FifthGroup(ds);
      Remainder(Leb(ds[..4]), ds[4], Leb(ds[5..]));
    }
  }

  /** Four groups, the fifth, and the rest. */
  lemma FifthGroup(ds: bytes)
    requires |ds| >= 5
    ensures Leb(ds[..4]) < 0x1000_0000
    ensures Leb(ds) == Leb(ds[..4]) + 0x1000_0000 * (ds[4] as int % 128 + 128 * Leb(ds[5..]))
  {
    Pow128Table();
    LebSplit(ds, 4); LebBound(ds[..4]);
    assert ds[4..][1..] == ds[5..];
  }

  lemma Remainder(low: nat, b: byte, hi: nat)
    requires low < 0x1000_0000
    ensures (low + 0x1000_0000 * (b as int % 128 + 128 * hi)) % U32 == low + 0x1000_0000 * (b as int % 16)
  {
    var q: nat, r: nat := b as int % 128 / 16 + 8 * hi, low + 0x1000_0000 * (b as int % 16);
    assert b as int % 128 + 128 * hi == b as int % 16 + 16 * q;
    assert low + 0x1000_0000 * (b as int % 128 + 128 * hi) == r + U32 * q;
    Residue(q, r);
  }

  lemma Residue(q: nat, r: nat)
    requires r < U32
    ensures (r + U32 * q) % U32 == r
  {
  }

  /** Conversely it accepts every varint, padded or not, whose value is below 2^32, with that value. */
  lemma ShortAcceptsSmall(bs: bytes)
    requires Read64(bs).Some? && Read64(bs).value.0 < U32
    ensures Read32(bs) == Read64(bs)
  {
    hide Leb, Scan;
    var n := Scan(bs) + 1;
    var ds := bs[..n];
    LowIsRemainder(ds);
    if n >= 5 {
      FifthGroup(ds);
      assert Leb(ds[5..]) == 0 && ds[4] % 128 < 16;
      forall k | 5 <= k < n ensures Extension(Low32(ds), k, ds[k]) {
        LebZero(ds[5..], k - 5);
      }
    }
  }

  lemma {:induction false} LebZero(bs: bytes, k: nat)
    requires Leb(bs) == 0 && k < |bs|
    ensures bs[k] % 128 == 0
  {
    if k > 0 { LebZero(bs[1..], k - 1); }
  }

  /** It also accepts the ten-byte sign extension of every negative int32. */
  lemma ShortAcceptsNegative(v: nat, tail: bytes)
    requires U64 - U31 <= v < U64
    ensures Read32(Minimal(v) + tail) == Some((v % U32, tail))
  {
    var bs := Minimal(v);
    MinimalComplete(v); Minimal64(v);
    NegativeGroups(v);
    LowIsRemainder(bs);
    assert bs[..|bs|] == bs;
    assert Short(bs);
    Read32Append(bs, tail);
    assert [] + tail == tail;
  }

  lemma NegativeGroups(v: nat)
    requires U64 - U31 <= v < U64
    ensures var bs := Minimal(v);
            && |bs| == 10 && bs[9] == 1 && 120 <= bs[4] % 128 < 128
            && (forall k | 5 <= k < 9 :: bs[k] == 255)
  {
    hide Minimal;
    var v2 := v / 128 / 128;
    var v4 := v2 / 128 / 128;
    HighGroups(v);
    TwoGroups(v); TwoGroups(v2);
    NextGroup(v4);
    AllOnesAbove();
    assert v4 / 128 == 0x1FFF_FFFF && v4 % 128 >= 120;
  }

  lemma HighGroups(v: nat)
    requires U64 - U31 <= v < U64
    ensures v >= 0x4000 && v / 128 / 128 >= 0x4000
    ensures 0xF_FFFF_FFF8 <= v / 128 / 128 / 128 / 128 <= 0xF_FFFF_FFFF
  {
  }

  lemma NextGroup(v: nat)
    requires v >= 128
    ensures Minimal(v) == [128 + v % 128] + Minimal(v / 128)
  {
  }

  lemma AllOnesAbove()
    ensures Minimal(0x1FFF_FFFF) == [255, 255, 255, 255, 1]
  {
    TwoGroups(0x1FFF_FFFF); TwoGroups(0x7FFF);
  }

  lemma TwoGroups(v: nat)
    requires v >= 128 * 128
    ensures Minimal(v) == [128 + v % 128, 128 + v / 128 % 128] + Minimal(v / 128 / 128)
  {
  }

  /** Beyond those it accepts every five-byte varint whose last byte is 0x78 to 0x7F, and cuts its value to 32 bits. */
  lemma ShortAcceptsMore(bs: bytes)
    requires Complete(bs) && |bs| == 5 && 0x78 <= bs[4] <= 0x7F
    ensures Read32(bs) == Some((Low32(bs), []))
    ensures Read64(bs) == Some((Low32(bs) + 7 * U32, []))
  {
    hide Leb;
    assert bs[..5] == bs && bs[5..] == [];
    FifthGroup(bs);
    NoGroups();
  }

  lemma NoGroups()
    ensures Leb([]) == 0
  {
  }

  /** Of all it accepts, exactly these stand for a 32-bit number or a sign-extended negative one: those with zero groups
      above bit 31, and those of ten bytes with all ones there. Every other value it accepts is cut. */
  lemma ShortAcceptsExactly(bs: bytes)
    requires Read32(bs).Some?
    ensures Read64(bs).Some?
    ensures var (n, v) := (Scan(bs) + 1, Read64(bs).value.0);
            v < U32 || v >= U64 - U31 <==>
              || ((n >= 5 ==> bs[4] % 128 < 16) && forall k | 5 <= k < n :: bs[k] % 128 == 0)
              || (n == 10 && bs[4] % 128 >= 120 && bs[9] == 1 && forall k | 5 <= k < 9 :: bs[k] == 255)
  {
    hide Leb, Scan, Short, Low32;
    ShortRefinesLong(bs);
    var n := Scan(bs) + 1;
    var ds := bs[..n];
    if n < 5 {
      FewGroups(ds);
    } else {
      var rest := ds[5..];
      FifthGroup(ds);
      AllZero(rest);
      RestBound(rest);
      assert forall k | 5 <= k < n :: rest[k - 5] == bs[k];
      assert (forall k | 5 <= k < n :: bs[k] % 128 == 0) <==> Zeros(rest) by {
        assert forall k | 0 <= k < |rest| :: rest[k] == bs[k + 5];
      }
      if n == 10 {
        assert (bs[9] == 1 && forall k | 5 <= k < 9 :: bs[k] == 255) <==> Ones(rest) by {
          assert forall k | 0 <= k < |rest| :: rest[k] == bs[k + 5];
          assert forall k | 5 <= k < 9 :: bs[k] >= 128;
        }
      }
    }
  }

  lemma FewGroups(ds: bytes)
    requires |ds| < 5
    ensures Leb(ds) < U32
  {
    Pow128Table();
    LebBound(ds); Pow128Mono(|ds|, 4);
  }

  ghost predicate Zeros(bs: bytes) {
    forall k | 0 <= k < |bs| :: bs[k] % 128 == 0
  }

  /** Bits 35 to 63 all set, in the five groups that hold them. */
  ghost predicate Ones(bs: bytes) {
    |bs| == 5 && bs[4] == 1 && forall k | 0 <= k < 4 :: bs[k] == 255
  }

  lemma {:induction false} AllZero(bs: bytes)
    ensures Leb(bs) == 0 <==> Zeros(bs)
  {
    if bs != [] {
      AllZero(bs[1..]);
      if Zeros(bs[1..]) && bs[0] % 128 == 0 {
        assert forall k | 1 <= k < |bs| :: bs[k] == bs[1..][k - 1];
      }
      if Zeros(bs) {
        assert forall k | 0 <= k < |bs| - 1 :: bs[1..][k] == bs[k + 1];
      }
    }
  }

  lemma {:induction false} AllOnes(bs: bytes)
    ensures Leb(bs) == Pow128(|bs|) - 1 <==> forall k | 0 <= k < |bs| :: bs[k] % 128 == 127
  {
    if bs != [] {
      AllOnes(bs[1..]);
      LebBound(bs[1..]);
      assert forall k | 0 <= k < |bs| - 1 :: bs[1..][k] == bs[k + 1];
      if forall k | 0 <= k < |bs| - 1 :: bs[1..][k] % 128 == 127 {
        assert forall k | 1 <= k < |bs| :: bs[k] == bs[1..][k - 1];
      }
    }
  }

  /** What the groups from the sixth on can stand for, and when it is the most. */
  lemma RestBound(bs: bytes)
    requires |bs| <= 5 && (|bs| == 5 ==> bs[4] <= 1) && forall k | 0 <= k < |bs| - 1 :: bs[k] >= 128
    ensures Leb(bs) <= 0x1FFF_FFFF
    ensures Leb(bs) == 0x1FFF_FFFF <==> Ones(bs)
  {
    hide Leb;
    Pow128Table();
    if |bs| < 5 {
      LebBound(bs); Pow128Mono(|bs|, 4);
    } else {
      LebSplit(bs, 4);
      LebBound(bs[..4]);
      AllOnes(bs[..4]);
      LastGroup(bs[4..]);
    }
  }

  lemma LastGroup(bs: bytes)
    requires |bs| == 1
    ensures Leb(bs) == bs[0] % 128
  {
  }
}
