/** The streaming MD5 context: whatever the calls to Update, the context depends only on the bytes fed so far. */
module Md5 {
  import opened Prelude
  import opened Md5Transform

  // ---------- words and bytes ----------

  /** Four bytes, low order first. */
  function WordOf(b0: byte, b1: byte, b2: byte, b3: byte): (x: u32) {
    (b0 as int) + 0x100 * (b1 as int) + 0x1_0000 * (b2 as int) + 0x100_0000 * (b3 as int)
  }

  function Word(s: seq<byte>, j: nat): (x: u32)
    requires j + 4 <= |s|
  {
    WordOf(s[j], s[j + 1], s[j + 2], s[j + 3])
  }

  function LittleEndian(x: u32): (s: seq<byte>)
    ensures |s| == 4
  {
    [x % 0x100, x / 0x100 % 0x100, x / 0x1_0000 % 0x100, x / 0x100_0000 % 0x100]
  }

  function LittleEndians(xs: seq<u32>): (s: seq<byte>)
    ensures |s| == 4 * |xs|
  {
    if xs == [] then [] else LittleEndians(xs[..|xs| - 1]) + LittleEndian(xs[|xs| - 1])
  }

  /** Reading a written word gives it back. */
  lemma WordOfLittleEndian(x: u32)
    ensures Word(LittleEndian(x), 0) == x
  {
    hide WordOf;
    Digits(x);
    assert Word(LittleEndian(x), 0)
           == WordOf(x % 0x100, x / 0x100 % 0x100, x / 0x1_0000 % 0x100, x / 0x100_0000 % 0x100);
  }

  lemma Digits(x: u32)
    ensures WordOf(x % 0x100, x / 0x100 % 0x100, x / 0x1_0000 % 0x100, x / 0x100_0000 % 0x100) == x
  {
    var (q, r, t) := (x / 0x100, x / 0x1_0000, x / 0x100_0000);
    TwoBytes(x);
    ThreeBytes(x);
    FourthByte(x);
    assert x == 0x100 * q + x % 0x100;
    assert q == 0x100 * r + q % 0x100;
    assert r == 0x100 * t + r % 0x100;
  }

  lemma TwoBytes(x: nat)
    ensures x / 0x1_0000 == x / 0x100 / 0x100
  {
  }

  lemma ThreeBytes(x: nat)
    ensures x / 0x100_0000 == x / 0x1_0000 / 0x100
  {
  }

  lemma FourthByte(x: u32)
    ensures x / 0x100_0000 % 0x100 == x / 0x100_0000
  {
  }

  function Vector(x: u32): bv32 { x as bv32 }

  function Number(x: bv32): u32 { x as int }

  lemma VectorOfNumber(x: bv32)
    ensures Vector(Number(x)) == x
  {
  }

  // ---------- the digest of a message ----------

  const INIT := Quad(0x67452301, 0xEFCDAB89, 0x98BADCFE, 0x10325476)

  /** Section 3.3 of RFC 1321 gives the initial words as bytes, low order first. */
  lemma InitIsCounting()
    ensures LittleEndians(QuadWords(INIT))
         == [0x01, 0x23, 0x45, 0x67, 0x89, 0xab, 0xcd, 0xef, 0xfe, 0xdc, 0xba, 0x98, 0x76, 0x54, 0x32, 0x10]
  {
    InitNumbers();
    InitBytes();
    hide LittleEndian, LittleEndians, Number;
    FourWords(0x67452301, 0xEFCDAB89, 0x98BADCFE, 0x10325476);
  }

  lemma InitNumbers()
    ensures QuadWords(INIT) == [0x67452301, 0xEFCDAB89, 0x98BADCFE, 0x10325476]
  {
  }

  lemma InitBytes()
    ensures LittleEndian(0x67452301) == [0x01, 0x23, 0x45, 0x67] && LittleEndian(0xEFCDAB89) == [0x89, 0xab, 0xcd, 0xef]
    ensures LittleEndian(0x98BADCFE) == [0xfe, 0xdc, 0xba, 0x98] && LittleEndian(0x10325476) == [0x76, 0x54, 0x32, 0x10]
  {
  }

  lemma FourWords(a: u32, b: u32, c: u32, d: u32)
    ensures LittleEndians([a, b, c, d]) == LittleEndian(a) + LittleEndian(b) + LittleEndian(c) + LittleEndian(d)
  {
    hide LittleEndian;
    assert [a, b, c, d][..3] == [a, b, c] && [a, b, c][..2] == [a, b] && [a, b][..1] == [a] && [a][..0] == [];
    assert LittleEndians([a]) == LittleEndian(a);
    assert LittleEndians([a, b]) == LittleEndian(a) + LittleEndian(b);
    assert LittleEndians([a, b, c]) == LittleEndian(a) + LittleEndian(b) + LittleEndian(c);
  }

  function Words(block: Block): (x: seq<bv32>)
    ensures |x| == 16
  {
    seq(16, i requires 0 <= i < 16 => Vector(Word(block, 4 * i)))
  }

  function Transformed(v: Quad, block: Block): Quad {
    var r := Steps(64, v, Words(block));
    Quad(Plus(v.a, r.a), Plus(v.b, r.b), Plus(v.c, r.c), Plus(v.d, r.d))
  }

  function Plus(x: bv32, y: bv32): bv32 { x + y }

  /** The state after the first n blocks of m. */
  function Folded(m: seq<byte>, n: nat): Quad
    requires 64 * n <= |m|
  {
    if n == 0 then INIT else Transformed(Folded(m, n - 1), m[64 * n - 64..64 * n])
  }

  /** The state after all whole blocks of m. */
  function StateOf(m: seq<byte>): seq<u32> { QuadWords(Folded(m, |m| / 64)) }

  /** The bytes behind the last whole block. */
  function Rest(m: seq<byte>): (r: seq<byte>)
    ensures |r| == |m| % 64
  {
    m[|m| / 64 * 64..]
  }

  lemma {:induction false} FoldedPrefix(m: seq<byte>, t: seq<byte>, n: nat)
    requires 64 * n <= |m|
    ensures Folded(m + t, n) == Folded(m, n)
  {
    hide Transformed;
    if n > 0 {
      FoldedPrefix(m, t, n - 1);
      assert (m + t)[64 * n - 64..64 * n] == m[64 * n - 64..64 * n];
    }
  }

  /** The least number of zero bytes that brings the length after the 0x80 byte to 56 modulo 64. */
  function Zeros(n: nat): nat { (119 - n % 64) % 64 }

  lemma ZerosIsLeast(n: nat, k: nat)
    ensures (n + 1 + Zeros(n)) % 64 == 56
    ensures (n + 1 + k) % 64 == 56 ==> Zeros(n) <= k
  {
    var r := n % 64;
    SameRemainder(n, 1 + k);
    SameRemainder(n, 1 + Zeros(n));
    ZerosOf(r);
    if k < Zeros(n) {
      assert r + 1 + k < 120 && r + 1 + k != 56;
    }
  }

  lemma SameRemainder(n: nat, k: nat)
    ensures (n + k) % 64 == (n % 64 + k) % 64
  {
    assert n + k == n / 64 * 64 + (n % 64 + k);
  }

  lemma ZerosOf(r: nat)
    requires r < 64
    ensures Zeros(r) == if r <= 55 then 55 - r else 119 - r
  {
  }

  /** Sections 3.1 and 3.2 of RFC 1321. */
  function Padded(m: seq<byte>): seq<byte> {
    m + [0x80] + seq(Zeros(|m|), _ => 0) + BitLength(|m|)
  }

  /** The length in bits modulo 2^64, low-order word first. */
  function BitLength(n: nat): seq<byte> {
    LittleEndian(8 * n % U64 % U32) + LittleEndian(8 * n % U64 / U32)
  }

  lemma PaddedLength(m: seq<byte>)
    ensures |Padded(m)| == |m| + 1 + Zeros(|m|) + 8 && |Padded(m)| % 64 == 0
  {
    hide Zeros, BitLength;
    ZerosFill(|m|);
    BitLengthIsEight(|m|);
  }

  lemma ZerosFill(n: nat)
    ensures (n + 1 + Zeros(n) + 8) % 64 == 0
  {
  }

  lemma BitLengthIsEight(n: nat)
    ensures |BitLength(n)| == 8
  {
  }

  function QuadWords(q: Quad): seq<u32> { [Number(q.a), Number(q.b), Number(q.c), Number(q.d)] }

  function Digest(m: seq<byte>): seq<byte> {
    LittleEndians(QuadWords(Folded(Padded(m), |Padded(m)| / 64)))
  }

  // ---------- the context ----------

  function CountLow(n: nat): u32 { 8 * n % U32 }

  function CountHigh(n: nat): u32 { 8 * n / U32 % U32 }

  /** Both words together are the length in bits modulo 2^64. */
  lemma CountsAreBits(n: nat)
    ensures CountLow(n) == 8 * n % U64 % U32 && CountHigh(n) == 8 * n % U64 / U32
  {
    SplitMod(8 * n);
  }

  lemma SplitMod(x: nat)
    ensures x % U64 % U32 == x % U32 && x % U64 / U32 == x / U32 % U32
  {
    var (q, r) := (x / U32, x % U32);
    var (h, l) := (q / U32, q % U32);
    assert x == q * U32 + r && q == h * U32 + l;
    assert x == h * U64 + (l * U32 + r);
    Quotient64(x, h, l * U32 + r);
    Quotient32(l * U32 + r, l, r);
  }

  lemma Quotient64(x: int, q: int, r: int)
    requires 0 <= r < U64 && x == q * U64 + r
    ensures x / U64 == q && x % U64 == r
  {
  }

  lemma Quotient32(x: int, q: int, r: int)
    requires 0 <= r < U32 && x == q * U32 + r
    ensures x / U32 == q && x % U32 == r
  {
  }

  /** (count[0] >> 3) & 0x3F. */
  function Index(low: u32): nat { low / 8 % 64 }

  lemma IndexIsTail(n: nat)
    ensures Index(CountLow(n)) == n % 64
  {
    var (q, r) := (n / 0x2000_0000, n % 0x2000_0000);
    Quotient32(8 * n, q, 8 * r);
    Eighth(r);
    Remainder64(n, q, r);
  }

  lemma Eighth(r: nat)
    ensures 8 * r / 8 == r
  {
  }

  lemma Remainder64(n: nat, q: nat, r: nat)
    requires n == q * 0x2000_0000 + r
    ensures n % 64 == r % 64
  {
    assert n == 64 * (q * 0x80_0000) + r;
  }

  /** Unsigned 32-bit addition. */
  function Plus32(x: u32, y: u32): u32 { (x + y) % U32 }

  lemma PlusNothing(x: u32)
    ensures Plus32(x, 0) == x
  {
  }

  /** The carry from one count word to the other is the carry of the 64-bit sum. */
  lemma CountsAdd(n: nat, len: u32)
    ensures var shifted := 8 * len % U32;
            var low := Plus32(CountLow(n), shifted);
            var high := Plus32(Plus32(CountHigh(n), if low < shifted then 1 else 0), len / 0x2000_0000);
            low == CountLow(n + len) && high == CountHigh(n + len)
  {
    var (b, c) := (8 * n, 8 * len);
    var (bq, br, cq, cr) := (b / U32, b % U32, c / U32, c % U32);
    assert b == bq * U32 + br && c == cq * U32 + cr;
    assert cq == len / 0x2000_0000;
    var carry := if br + cr < U32 then 0 else 1;
    Quotient32(b + c, bq + cq + carry, br + cr - carry * U32);
    assert (br + cr) % U32 == br + cr - carry * U32;
    SumMod(bq, carry, cq);
  }

  lemma SumMod(x: nat, y: nat, z: nat)
    ensures ((x % U32 + y) % U32 + z) % U32 == (x + z + y) % U32
  {
    var q := (x % U32 + y) / U32;
    assert x == x / U32 * U32 + x % U32;
    assert x % U32 + y == q * U32 + (x % U32 + y) % U32;
    var t := (x % U32 + y) % U32 + z;
    assert x + z + y == (x / U32 + q) * U32 + t;
    assert t == t / U32 * U32 + t % U32;
    Quotient32(x + z + y, x / U32 + q + t / U32, t % U32);
  }

  /** xd_MD5Decode of one block. */
  method Decode(input: array<byte>, at: nat) returns (output: seq<bv32>)
    requires at + 64 <= input.Length
    ensures output == Words(input[at..at + 64])
  {
    hide WordOf, Vector;
    output := [];
    var j := 0;
    ghost var words := Words(input[at..at + 64]);
    while j < 64
      invariant 0 <= j <= 64 && j % 4 == 0 && output == words[..j / 4]
    {
      output := output + [Vector(WordOf(input[at + j], input[at + j + 1], input[at + j + 2], input[at + j + 3]))];
      assert words[..j / 4 + 1] == words[..j / 4] + [words[j / 4]];
      j := j + 4;
    }
  }

  /** xd_MD5Encode. */
  method Encode(output: array<byte>, input: array<u32>, len: nat)
    requires len % 4 == 0 && len <= output.Length && len / 4 <= input.Length
    modifies output
    ensures output[..len] == LittleEndians(input[..len / 4])
  {
    hide LittleEndian, LittleEndians;
    var i, j := 0, 0;
    NoWords(input[..0]);
    while j < len
      invariant 0 <= j <= len && j == 4 * i
      invariant output[..j] == LittleEndians(input[..i])
    {
      EncodeWord(output, j, input[i]);
      OneMoreWord(input[..i], input[i]);
      assert input[..i + 1] == input[..i] + [input[i]];
      i, j := i + 1, j + 4;
    }
  }

  method EncodeWord(output: array<byte>, j: nat, x: u32)
    requires j + 4 <= output.Length
    modifies output
    ensures output[..j + 4] == old(output[..j]) + LittleEndian(x)
  {
    output[j] := x % 0x100;
    output[j + 1] := x / 0x100 % 0x100;
    output[j + 2] := x / 0x1_0000 % 0x100;
    output[j + 3] := x / 0x100_0000 % 0x100;
  }

  lemma NoWords(xs: seq<u32>)
    requires xs == []
    ensures LittleEndians(xs) == []
  {
  }

  lemma OneMoreWord(xs: seq<u32>, x: u32)
    ensures LittleEndians(xs + [x]) == LittleEndians(xs) + LittleEndian(x)
  {
    hide LittleEndian;
    assert (xs + [x])[..|xs|] == xs;
  }

  lemma NoSteps(q: Quad, x: seq<bv32>)
    requires |x| == 16
    ensures Steps(0, q, x) == q
  {
  }

  method MemCpy(target: array<byte>, targetAt: nat, source: array<byte>, from: nat, n: nat)
    requires targetAt + n <= target.Length && from + n <= source.Length && target != source
    modifies target
    ensures target[..] == old(target[..targetAt]) + source[from..from + n] + old(target[targetAt + n..])
  {
    var i := 0;
    while i < n
      invariant 0 <= i <= n
      invariant target[..] == old(target[..targetAt]) + source[from..from + i] + old(target[targetAt + i..])
    {
      target[targetAt + i] := source[from + i];
      i := i + 1;
    }
  }

  lemma FromWords(q: Quad)
    ensures var w := QuadWords(q); Quad(Vector(w[0]), Vector(w[1]), Vector(w[2]), Vector(w[3])) == q
  {
    hide Vector, Number;
    VectorOfNumber(q.a); VectorOfNumber(q.b); VectorOfNumber(q.c); VectorOfNumber(q.d);
  }

  lemma FoldedOneMore(m: seq<byte>, k: nat)
    requires 64 * k + 64 <= |m|
    ensures Folded(m, k + 1) == Transformed(Folded(m, k), m[64 * k..64 * k + 64])
  {
    hide Transformed;
  }

  /** The rest of the old message and the first bytes of the new input make up the next block. */
  lemma FilledBlock(m: seq<byte>, t: seq<byte>, k: nat, index: nat)
    requires |m| == 64 * k + index && index < 64 && index + |t| >= 64
    ensures (m + t)[64 * k..64 * k + 64] == m[64 * k..] + t[..64 - index]
  {
  }

  method Rounds(a0: bv32, b0: bv32, c0: bv32, d0: bv32, x: seq<bv32>) returns (a: bv32, b: bv32, c: bv32, d: bv32)
    requires |x| == 16
    ensures Quad(a, b, c, d) == Steps(64, Quad(a0, b0, c0, d0), x)
  {
    ghost var v := Quad(a0, b0, c0, d0);
    NoSteps(v, x);
    hide Steps;
    a, b, c, d := Round1(v, x, a0, b0, c0, d0);
    a, b, c, d := Round2(v, x, a, b, c, d);
    a, b, c, d := Round3(v, x, a, b, c, d);
    a, b, c, d := Round4(v, x, a, b, c, d);
  }

  /** The bytes that Final takes from its padding array bring 0x80 and the zeros that the standard asks for. */
  lemma PaddingFits(m: seq<byte>, padding: seq<byte>, padlen: nat)
    requires |padding| == 64 && padding[0] == 0x80 && forall i | 1 <= i < 64 :: padding[i] == 0
    requires padlen == if |m| % 64 < 56 then 56 - |m| % 64 else 120 - |m| % 64
    ensures m + padding[..padlen] + BitLength(|m|) == Padded(m)
  {
    hide BitLength;
    assert padlen == 1 + Zeros(|m|);
    hide Zeros;
    assert padding[..padlen] == [0x80] + seq(Zeros(|m|), _ => 0);
  }

  lemma CountBytes(n: nat, count: seq<u32>)
    requires |count| == 2 && count[0] == CountLow(n) && count[1] == CountHigh(n)
    ensures LittleEndians(count) == BitLength(n)
  {
    hide LittleEndian;
    CountsAreBits(n);
    assert count == [] + [count[0]] + [count[1]];
    OneMoreWord([count[0]], count[1]); OneMoreWord([], count[0]);
    assert [] + [count[0]] == [count[0]];
  }

  /** Input that does not complete a block goes behind the bytes already in the buffer. */
  lemma RestGrows(m: seq<byte>, t: seq<byte>, before: seq<byte>, after: seq<byte>)
    requires |m| % 64 + |t| < 64 && |before| == 64
    requires before[..|m| % 64] == Rest(m) && after == before[..|m| % 64] + t + before[|m| % 64 + |t|..]
    ensures |m + t| % 64 <= |after| && after[..|m + t| % 64] == Rest(m + t) && StateOf(m + t) == StateOf(m)
  {
    hide Folded, QuadWords;
    FoldedPrefix(m, t, |m| / 64);
    assert |m + t| / 64 == |m| / 64 && |m + t| % 64 == |m| % 64 + |t|;
  }

  /** Input behind whole blocks starts the buffer anew. */
  lemma RestStarts(m: seq<byte>, t: seq<byte>, before: seq<byte>, after: seq<byte>, i: nat)
    requires i <= |t| < i + 64 && (|m| + i) % 64 == 0 && |before| == 64 && after == t[i..] + before[|t| - i..]
    ensures |m + t| % 64 <= |after| && after[..|m + t| % 64] == Rest(m + t)
  {
    assert |m + t| / 64 * 64 == |m| + i && |m + t| % 64 == |t| - i;
  }

  /** The length from which on the block loop does not end, for a buffer that holds index bytes. */
  function Limit(index: nat): (n: nat)
    requires index < 64
    ensures U32 - 64 <= n < U32
  {
    U32 - if index == 0 then 64 else index
  }

  /** Behind k whole blocks of a message of which n bytes came before, the index of the loop does not wrap. */
  lemma NoWrap(i: nat, n: nat, k: nat)
    requires n + i == 64 * k && i < Limit(n % 64)
    ensures (i + 64) % U32 == i + 64
  {
  }

  lemma BlocksDone(i: nat, n: nat, k: nat, len: nat)
    requires n + i == 64 * k && i <= len < i + 64
    ensures (n + i) % 64 == 0 && (n + len) / 64 == k
  {
  }

  /** i += 64 in 32 bits. */
  function NextIndex(i: nat): nat { (i + 64) % U32 }

  /** The index of the block loop after k turns, for a buffer that held index bytes. */
  function LoopIndex(index: nat, k: nat): nat
    requires index < 64
  {
    if k == 0 then 64 - index else NextIndex(LoopIndex(index, k - 1))
  }

  predicate LeavesAfter(index: nat, len: nat, k: nat)
    requires index < 64
  {
    NextIndex(LoopIndex(index, k)) > len
  }

  ghost predicate LoopEnds(index: nat, len: nat)
    requires index < 64
  {
    exists k: nat :: LeavesAfter(index, len, k)
  }

  /** However often the index wraps, it stays in its class modulo 64 and so at most at the limit. */
  lemma {:induction false} IndexBelowLimit(index: nat, k: nat)
    requires index < 64
    ensures (LoopIndex(index, k) + index) % 64 == 0 && LoopIndex(index, k) <= Limit(index)
  {
    if k > 0 {
      IndexBelowLimit(index, k - 1);
      ClassKept(LoopIndex(index, k - 1), index);
    }
  }

  lemma ClassKept(i: nat, index: nat)
    requires index < 64 && (i + index) % 64 == 0 && i < U32
    ensures (NextIndex(i) + index) % 64 == 0 && NextIndex(i) <= Limit(index)
  {
  }

  lemma {:induction false} IndexBeforeWrap(index: nat, k: nat)
    requires index < 64 && 64 - index + 64 * k < U32
    ensures LoopIndex(index, k) == 64 - index + 64 * k
  {
    if k > 0 { IndexBeforeWrap(index, k - 1); }
  }

  /** For input that completes the block in the buffer the block loop ends exactly below the limit. From there on its
      index wraps and starts over for ever. */
  lemma LoopEndsExactly(index: nat, len: nat)
    requires index < 64 && 64 - index <= len < U32
    ensures LoopEnds(index, len) <==> len < Limit(index)
  {
    hide LoopIndex;
    if len < Limit(index) {
      var k := (len - (64 - index)) / 64;
      IndexBeforeWrap(index, k);
      NoWrap(LoopIndex(index, k), index, k + 1);
      assert LeavesAfter(index, len, k);
    } else {
      forall k: nat ensures !LeavesAfter(index, len, k) {
        IndexBelowLimit(index, k);
        ClassKept(LoopIndex(index, k), index);
      }
    }
  }

  /** An update of a fresh context ends for every length below 2^32 - 64 and for no other. */
  lemma LoopEndsFromFresh(len: nat)
    requires 64 <= len < U32
    ensures LoopEnds(0, len) <==> len < U32 - 64
  {
    LoopEndsExactly(0, len);
  }

  class Context {
    const count: array<u32>
    const state: array<u32>
    const buffer: array<byte>

    ghost predicate Valid() {
      count.Length == 2 && state.Length == 4 && buffer.Length == 64 && count != state
    }

    /** The context of the message m: bit count, state over its whole blocks and the rest of its bytes. */
    ghost predicate Holds(m: seq<byte>)
      reads count, state, buffer
    {
      && Valid()
      && count[0] == CountLow(|m|) && count[1] == CountHigh(|m|)
      && state[..] == StateOf(m)
      && buffer[..|m| % 64] == Rest(m)
    }

    /** xd_MD5Init. */
    constructor ()
      ensures Valid() && Holds([]) && fresh(count) && fresh(state) && fresh(buffer)
    {
      count := new u32[2](_ => 0);
      state := new u32[4];
      buffer := new byte[64];
      new;
      state[0] := 0x67452301;
      state[1] := 0xEFCDAB89;
      state[2] := 0x98BADCFE;
      state[3] := 0x10325476;
    }

    /** xd_MD5Transform on the block at the given place of a buffer. */
    method Transform(block: array<byte>, at: nat, ghost q: Quad)
      requires Valid() && at + 64 <= block.Length && state[..] == QuadWords(q)
      modifies state
      ensures state[..] == QuadWords(Transformed(q, block[at..at + 64]))
    {
      hide Steps, Words, QuadWords, Vector;
      var x := Decode(block, at);
      FromWords(q);
      var a, b, c, d := Rounds(Vector(state[0]), Vector(state[1]), Vector(state[2]), Vector(state[3]), x);
      AddState(a, b, c, d, q);
    }

    /** state[0] += a and so on. */
    method AddState(a: bv32, b: bv32, c: bv32, d: bv32, ghost q: Quad)
      requires Valid() && state[..] == QuadWords(q)
      modifies state
      ensures state[..] == QuadWords(Quad(Plus(q.a, a), Plus(q.b, b), Plus(q.c, c), Plus(q.d, d)))
    {
      hide Vector, Number, Plus;
      FromWords(q);
      state[0] := Number(Plus(Vector(state[0]), a));
      state[1] := Number(Plus(Vector(state[1]), b));
      state[2] := Number(Plus(Vector(state[2]), c));
      state[3] := Number(Plus(Vector(state[3]), d));
    }

    /** xd_MD5Update. */
    method Update(input: array<byte>, len: nat, ghost m: seq<byte>)
      requires Holds(m) && len <= input.Length && len < Limit(|m| % 64) && input != buffer
      modifies count, state, buffer
      ensures Holds(m + input[..len])
    {
      hide StateOf, Rest, CountLow, CountHigh, Index;
      IndexIsTail(|m|);
      var index := Index(count[0]);
      AddLength(len, |m|);
      Feed(input, len, index, m);
    }

    /** Update without the count. */
    method Feed(input: array<byte>, len: nat, index: nat, ghost m: seq<byte>)
      requires Valid() && index == |m| % 64 && len <= input.Length && len < Limit(index) && input != buffer
      requires buffer[..index] == Rest(m) && state[..] == StateOf(m)
      modifies state, buffer
      ensures state[..] == StateOf(m + input[..len]) && buffer[..|m + input[..len]| % 64] == Rest(m + input[..len])
    {
      hide StateOf, Rest;
      var partlen := 64 - index;
      ghost var t := input[..len];
      ghost var before := buffer[..];
      if len >= partlen {
        var i, turns := WholeBlocks(input, len, index, partlen, m);
        before := buffer[..];
        MemCpy(buffer, 0, input, i, len - i);
        assert t[i..] == input[i..len];
        RestStarts(m, t, before, buffer[..], i);
      } else {
        MemCpy(buffer, index, input, 0, len);
        RestGrows(m, t, before, buffer[..]);
      }
    }

    /** Block k of the whole message is taken up from the buffer it lies in. */
    method NextBlock(block: array<byte>, at: nat, ghost all: seq<byte>, ghost k: nat)
      requires Valid() && at + 64 <= block.Length && 64 * k + 64 <= |all|
      requires block[at..at + 64] == all[64 * k..64 * k + 64] && state[..] == QuadWords(Folded(all, k))
      modifies state
      ensures state[..] == QuadWords(Folded(all, k + 1))
    {
      hide Folded, Transformed, QuadWords;
      Transform(block, at, Folded(all, k));
      FoldedOneMore(all, k);
    }

    /** The branch of Update that completes the block in the buffer and takes all further blocks from the input. */
    method WholeBlocks(input: array<byte>, len: nat, index: nat, partlen: nat, ghost m: seq<byte>)
      returns (i: nat, ghost turns: nat)
      requires Valid() && index == |m| % 64 && len <= input.Length && len < Limit(index) && input != buffer
      requires partlen == 64 - index <= len && buffer[..index] == Rest(m) && state[..] == StateOf(m)
      modifies state, buffer
      ensures LeavesAfter(index, len, turns) && i == LoopIndex(index, turns)
      ensures partlen <= i <= len < i + 64 && (|m| + i) % 64 == 0
      ensures state[..] == StateOf(m + input[..len])
    {
      hide Folded, Transformed, QuadWords, Limit;
      ghost var (n, k, all) := (|m|, |m| / 64 + 1, m + input[..len]);
      FirstBlock(input, len, index, partlen, m);
      i, turns := partlen, 0;
      NoWrap(i, n, k);
      while NextIndex(i) <= len
        invariant partlen <= i <= len && n + i == 64 * k && NextIndex(i) == i + 64
        invariant i == LoopIndex(index, turns)
        invariant state[..] == QuadWords(Folded(all, k))
      {
        assert input[i..i + 64] == all[64 * k..64 * k + 64];
        NextBlock(input, i, all, k);
        i, k, turns := NextIndex(i), k + 1, turns + 1;
        NoWrap(i, n, k);
      }
      BlocksDone(i, n, k, len);
    }

    /** The block in the buffer is completed from the input. */
    method FirstBlock(input: array<byte>, len: nat, index: nat, partlen: nat, ghost m: seq<byte>)
      requires Valid() && index == |m| % 64 && len <= input.Length && input != buffer
      requires partlen == 64 - index <= len && buffer[..index] == Rest(m) && state[..] == StateOf(m)
      modifies state, buffer
      ensures state[..] == QuadWords(Folded(m + input[..len], |m| / 64 + 1))
    {
      hide Folded, Transformed, QuadWords;
      ghost var (t, k) := (input[..len], |m| / 64);
      FoldedPrefix(m, t, k);
      MemCpy(buffer, index, input, 0, partlen);
      FilledBlock(m, t, k, index);
      assert buffer[0..64] == (m + t)[64 * k..64 * k + 64];
      NextBlock(buffer, 0, m + t, k);
    }

    /** The two words of the bit count. */
    method AddLength(len: nat, ghost n: nat)
      requires Valid() && len < U32 && count[0] == CountLow(n) && count[1] == CountHigh(n)
      modifies count
      ensures count[0] == CountLow(n + len) && count[1] == CountHigh(n + len)
    {
      hide CountLow, CountHigh, Plus32;
      CountsAdd(n, len);
      PlusNothing(count[1]);
      var shifted := 8 * len % U32;
      count[0] := Plus32(count[0], shifted);
      if count[0] < shifted {
        count[1] := Plus32(count[1], 1);
      }
      count[1] := Plus32(count[1], len / 0x2000_0000);
    }

    /** xd_MD5Final: the digest of the padded message of RFC 1321. */
    method Final(digest: array<byte>, ghost m: seq<byte>)
      requires Holds(m) && digest.Length >= 16 && digest != buffer
      modifies count, state, buffer, digest
      ensures digest[..16] == Digest(m)
    {
      hide Folded, QuadWords, CountLow, CountHigh, Index, LittleEndian, LittleEndians, Zeros, Padded;
      IndexIsTail(|m|);
      var index := Index(count[0]);
      var padlen := if index < 56 then 56 - index else 120 - index;
      var bits := new byte[8];
      Encode(bits, count, 8);
      CountBytes(|m|, count[..2]);
      var padding := new byte[64](i => if i == 0 then 0x80 else 0);
      PaddingFits(m, padding[..], padlen);
      ghost var (zeros, length) := (padding[..padlen], bits[..8]);
      Update(padding, padlen, m);
      Update(bits, 8, m + zeros);
      PaddedLength(m);
      assert m + zeros + length == Padded(m);
      Encode(digest, state, 16);
      assert state[..4] == state[..];
    }
  }

  /** get_md5_32_str up to the digest it prints. */
  method DigestOf(encrypt: array<byte>, len: nat) returns (decrypt: array<byte>)
    requires len <= encrypt.Length && len < Limit(0)
    ensures fresh(decrypt) && decrypt[..] == Digest(encrypt[..len])
  {
    hide Digest, Folded;
    decrypt := new byte[16];
    var md5 := new Context();
    ghost var m := encrypt[..len];
    md5.Update(encrypt, len, []);
    assert [] + m == m;
    md5.Final(decrypt, m);
    assert decrypt[..] == decrypt[..16];
  }
}
