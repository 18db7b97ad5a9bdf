/** What the bytes on the wire stand for by the encoding that Protocol Buffers defines, without reference to how the
    encoder finds them, and what the decoder steps over or refuses. */
module WireValues {
  import opened Prelude
  import opened Varint
  import opened IStreams
  import opened Schema
  import opened Wire
  import opened RoundTrip

  // ---------- varints ----------

  /** Byte k of a minimal varint holds bits 7k to 7k + 6; all bytes but the last carry the continuation bit. */
  lemma {:induction false} MinimalGroups(v: nat, k: nat)
    requires k < |Minimal(v)|
    ensures Minimal(v)[k] % 128 == v / Pow128(k) % 128
    ensures Minimal(v)[k] >= 128 <==> k + 1 < |Minimal(v)|
  {
    if k > 0 {
      MinimalGroups(v / 128, k - 1);
      DividedTwice(v, 128, Pow128(k - 1));
    }
  }

  lemma DividedTwice(v: nat, a: nat, b: nat)
    requires a > 0 && b > 0
    ensures a * b > 0 && v / a / b == v / (a * b)
  {
    Positive(a, b);
    var (q, r) := (v / a, v % a);
    var (p, s) := (q / b, q % b);
    Division(v, a); Division(q, b);
    Regroup(a, b, p, s);
    Below(a, b, s, r);
    Quotient(v, a * b, p, a * s + r);
  }

  lemma Division(v: nat, a: nat)
    requires a > 0
    ensures v == a * (v / a) + v % a && v % a < a
  {
  }

  lemma Regroup(a: nat, b: nat, p: nat, s: nat)
    ensures a * (b * p + s) == (a * b) * p + a * s
  {
  }

  lemma Positive(a: nat, b: nat)
    requires a > 0 && b > 0
    ensures a * b > 0
  {
  }

  lemma Below(a: nat, b: nat, s: nat, r: nat)
    requires s < b && r < a
    ensures 0 <= a * s + r < a * b
  {
    assert a * s + a <= a * b by { Steps(a, s + 1, b); }
  }

  lemma Steps(a: nat, m: nat, n: nat)
    requires m <= n
    ensures a * m <= a * n
  {
  }

  lemma Quotient(v: nat, d: nat, q: nat, r: nat)
    requires v == d * q + r && r < d
    ensures v / d == q
  {
    var (p, s) := (v / d, v % d);
    Division(v, d);
    if p < q { Steps(d, p + 1, q); }
    if q < p { Steps(d, q + 1, p); }
  }

  /** A tag is the varint of eight times the field number plus the wire type. */
  lemma TagValue(wt: nat, tag: nat)
    ensures Complete(EncTag(wt, tag)) && Leb(EncTag(wt, tag)) == 8 * tag + wt
  {
    MinimalComplete(8 * tag + wt);
  }

  // ---------- numbers ----------

  /** The wire types of the standard. */
  lemma WireTypes(s: Scalar)
    requires s.Ok()
    ensures WireType(s.lt) == match s.lt case LFixed32 => 5 case LFixed64 => 1 case _ => 0
  {
  }

  /** A varint number stands for 0 or 1 if it is a bool, for the value modulo 2^64 if it is unsigned or signed, and for
      2v or -2v - 1 if it is zigzag. */
  lemma NumberValue(s: Scalar, v: int)
    requires s.Ok() && s.Holds(v) && !s.lt.LFixed32? && !s.lt.LFixed64?
    ensures Complete(EncScalar(s, v))
    ensures s.lt.LBool? ==> Leb(EncScalar(s, v)) == (if v == 0 then 0 else 1)
    ensures s.lt.LUVarint? || s.lt.LVarint? ==> Leb(EncScalar(s, v)) == v % U64
    ensures s.lt.LSVarint? ==> Leb(EncScalar(s, v)) == (if v >= 0 then 2 * v else -2 * v - 1)
  {
    hide Minimal;
    match s.lt
    case LBool => MinimalComplete(if v != 0 then 1 else 0);
    case LUVarint => MinimalComplete(v);
    case LVarint => MinimalComplete(ToU64(v));
    case LSVarint => MinimalComplete(ZigZag(v));
  }

  /** A fixed-width number has four or eight bytes, low order first. */
  lemma FixedValue(s: Scalar, v: int, i: nat)
    requires s.Ok() && s.Holds(v) && (s.lt.LFixed32? || s.lt.LFixed64?) && i < |EncScalar(s, v)|
    ensures |EncScalar(s, v)| == if s.lt.LFixed32? then 4 else 8
    ensures EncScalar(s, v)[i] == v / Pow256(i) % 256
  {
    LeByte(s.size, v, i);
  }

  lemma {:induction false} LeByte(n: nat, v: nat, i: nat)
    requires i < n
    ensures Le(n, v)[i] == v / Pow256(i) % 256
  {
    if i > 0 {
      LeByte(n - 1, v / 256, i - 1);
      DividedTwice(v, 256, Pow256(i - 1));
    }
  }

  /** The two ways to send a bool agree on the values a bool has. */
  lemma BoolElement(v: int)
    requires v == 0 || v == 1
    ensures EncScalar(Scalar(LBool, 1), v) == EncElem(Scalar(LBool, 1), v) == [v]
  {
    OneByteForm(v);
    hide Minimal;
    assert Signed(v, 0x100) == v;
  }

  lemma OneByteForm(v: nat)
    requires v < 128
    ensures Minimal(v) == [v]
  {
  }

  /** v is a two's complement number of so many bytes. */
  predicate InRange(size: nat, v: int) {
    var range: int := Pow256(size);
    -range <= 2 * v < range
  }

  /** A member of so many bytes holds the numbers of that width. */
  lemma MemberRange(s: Scalar, v: int)
    requires s.Ok()
    ensures s.size in {1, 2, 4, 8} && Modulus(s.size) == Pow256(s.size)
    ensures s.lt.LUVarint? ==> (s.Holds(v) <==> 0 <= v < Pow256(s.size))
    ensures s.lt.LVarint? || s.lt.LSVarint? ==> (s.Holds(v) <==> InRange(s.size, v))
  {
    WordSizes();
    assert Pow256(1) == 256 && Pow256(2) == U16;
  }

  /** The characters of a string are those before its first NUL. */
  lemma {:induction false} TextEnds(cs: bytes)
    requires 0 in cs
    ensures var t := UpToNul(cs); |t| < |cs| && t == cs[..|t|] && cs[|t|] == 0 && 0 !in t
  {
    if cs[0] != 0 {
      TextEnds(cs[1..]);
    }
  }

  // ---------- reading any varint ----------

  /** The long reader takes every complete varint of at most ten bytes whose tenth is 0 or 1, and no other. */
  lemma Read64Exactly(c: bytes, tail: bytes)
    requires Complete(c)
    ensures Read64(c + tail)
            == if |c| > 10 || (|c| == 10 && c[9] > 1) then None else Some((Leb(c), tail))
  {
    ScanAppend(c, tail);
    assert (c + tail)[..|c|] == c && (c + tail)[|c|..] == tail;
  }

  lemma Unterminated(bs: bytes)
    requires Scan(bs) == |bs|
    ensures Read64(bs).None? && Read32(bs).None?
  {
  }

  /** An unsigned member refuses exactly the values that do not fit it. */
  lemma UnsignedFits(size: nat, w: nat, tail: bytes)
    requires size in {1, 2, 4, 8} && w < U64
    ensures DecScalar(Scalar(LUVarint, size), Minimal(w) + tail)
            == if w < Pow256(size) then Some((w, tail)) else None
  {
    hide Read64, Minimal;
    MemberRange(Scalar(LUVarint, size), 0);
    Read64Minimal(w, tail);
  }

  /** A zigzag member refuses exactly the values that do not fit it. */
  lemma ZigZagFits(size: nat, v: int, tail: bytes)
    requires size in {1, 2, 4, 8} && -U63 <= v < U63
    ensures var w := if v >= 0 then 2 * v else -2 * v - 1;
            DecScalar(Scalar(LSVarint, size), Minimal(w) + tail)
            == if InRange(size, v) then Some((v, tail)) else None
  {
    hide Read64, Minimal;
    MemberRange(Scalar(LSVarint, size), v);
    Read64Minimal(if v >= 0 then 2 * v else -2 * v - 1, tail);
  }

  /** A signed member of 64 bits takes every value. A smaller one first loses all but the low 32 bits, so that a 32-bit
      member refuses nothing, and then refuses exactly what does not fit it. */
  lemma SignedFits(size: nat, v: int, u: int, tail: bytes)
    requires size in {1, 2, 4, 8} && -U63 <= v < U63
    requires if size == 8 then u == v else -U31 <= u < U31 && u % U32 == v % U32
    ensures DecScalar(Scalar(LVarint, size), Minimal(v % U64) + tail)
            == if InRange(size, u) then Some((u, tail)) else None
    ensures size >= 4 ==> InRange(size, u)
  {
    hide Read64, Minimal;
    MemberRange(Scalar(LVarint, size), u);
    Read64Minimal(v % U64, tail);
    CastIs(v, u, size == 8);
  }

  lemma CastIs(v: int, u: int, wide: bool)
    requires -U63 <= v < U63 && if wide then u == v else -U31 <= u < U31 && u % U32 == v % U32
    ensures Signed(v % U64, if wide then U64 else U32) == u
  {
    if !wide { LowBits(v); }
  }

  lemma LowBits(v: int)
    ensures v % U64 % U32 == v % U32
  {
    var (q, r) := (v / U64, v % U64);
    var (p, s) := (r / U32, r % U32);
    assert v == U32 * (U32 * q + p) + s;
    SameResidue(v, U32 * q + p, s);
  }

  lemma SameResidue(v: int, q: int, s: nat)
    requires s < U32 && v == U32 * q + s
    ensures v % U32 == s
  {
  }

  /** A bool is true for every varint the short reader takes whose low 32 bits are not zero. */
  lemma BoolRead(c: bytes, tail: bytes)
    requires Complete(c)
    ensures var r := DecScalar(Scalar(LBool, 1), c + tail);
            && (r.Some? <==> Read32(c).Some?)
            && (r.Some? ==> r.value == (if Leb(c) % U32 == 0 then 0 else 1, tail))
  {
    hide Leb, Short, Low32;
    ScanAppend(c, tail);
    assert (c + tail)[..|c|] == c && (c + tail)[|c|..] == tail && c[..|c|] == c;
    LowIsRemainder(c);
  }

  // ---------- skipping ----------

  /** Skipping a varint steps over all of it, however long. */
  lemma SkipsVarint(c: bytes, tail: bytes)
    requires Complete(c)
    ensures SkipField(c + tail, 0) == Some(tail)
  {
    ScanAppend(c, tail);
    assert (c + tail)[|c|..] == tail;
  }

  /** Skipping by its wire type steps over exactly what was written of a number. */
  lemma SkipsNumber(s: Scalar, v: int, tail: bytes)
    requires s.Ok() && s.Holds(v)
    ensures SkipField(EncScalar(s, v) + tail, WireType(s.lt)) == Some(tail)
  {
    hide EncScalar;
    if s.lt.LFixed32? || s.lt.LFixed64? {
      var n := FixedLength(s, v);
      assert (EncScalar(s, v) + tail)[n..] == tail;
    } else {
      NumberValue(s, v);
      SkipsVarint(EncScalar(s, v), tail);
    }
  }

  lemma FixedLength(s: Scalar, v: int) returns (n: nat)
    requires s.Ok() && s.Holds(v) && (s.lt.LFixed32? || s.lt.LFixed64?)
    ensures |EncScalar(s, v)| == n && n == if s.lt.LFixed32? then 4 else 8
  {
    n := s.size;
  }

  /** And over exactly what was written of a string or submessage. */
  lemma SkipsCounted(p: bytes, tail: bytes)
    requires |p| < U32
    ensures SkipField(Counted(p) + tail, 2) == Some(tail)
  {
    CountedRoundTrip(p, tail);
  }

  /** No other wire type can be skipped. */
  lemma SkipsNothingElse(bs: bytes, wt: nat)
    requires wt !in {0, 1, 2, 5}
    ensures SkipField(bs, wt).None?
  {
  }
}
