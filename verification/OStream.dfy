/** The output stream: pb_write and the scalar writers of pb_encode.c over a memory buffer,
    or counting only when there is no buffer (a sizing stream). */
module OStreams {
  import opened Prelude
  import opened Pieces
  import opened Varint

  /** after is before with bs put at index at. */
  ghost predicate Placed(before: bytes, after: bytes, at: nat, bs: bytes) {
    && at + |bs| <= |before|
    && after == before[..at] + bs + before[at + |bs|..]
  }

  /** Only the room bytes from index at on may differ. */
  ghost predicate Inside(before: bytes, after: bytes, at: nat, room: nat) {
    && at + room <= |before| == |after|
    && after[..at] == before[..at]
    && after[at + room..] == before[at + room..]
  }

  /** What a stream shows: whether it writes, its buffer, cursor, the end of the memory given to the root stream, its
      own limit and count, and whether a write has gone past that memory. */
  datatype Out = Out(writing: bool, mem: bytes, pos: nat, end: nat, maxSize: nat, written: nat, over: bool) {
    ghost predicate Ok() {
      && written < U32 && maxSize < U32 && !over
      && (writing ==> pos <= end <= |mem| && Sane(written, end - pos, maxSize))
    }

    function Room(): nat { if pos <= end then end - pos else 0 }
  }

  /** From a to b an operation that writes the pieces ps ended with status ok. With a buffer it is the pieces' fate that
      decides, only memory of the root stream changes, and also a failing run has moved the cursor and the count by
      what it has written. Without one only the count moves, modulo 2^32. */
  ghost predicate Emits(a: Out, b: Out, ok: bool, ps: seq<Piece>)
    requires a.Ok()
  {
    && b.writing == a.writing && b.maxSize == a.maxSize && b.end == a.end
    && (ok ==> b.Ok())
    && if a.writing then
         var fate := Fates(ps, a.written, a.Room(), a.maxSize);
         && (ok <==> fate.Fits?) && (b.over <==> fate.Over?)
         && Inside(a.mem, b.mem, a.pos, a.Room())
         && var n := Reached(ps, a.written, a.Room(), a.maxSize);
         && (!b.over ==> b.written == a.written + n && b.pos == a.pos + n)
         && (ok ==> n == |Flat(ps)|) && (ok ==> Placed(a.mem, b.mem, a.pos, Flat(ps)))
       else
         && (ok <==> Whole(ps)) && b.mem == a.mem && b.pos == a.pos && !b.over
         && (ok ==> b.written == (a.written + |Flat(ps)|) % U32)
  }

  lemma EmitsThen(a: Out, b: Out, c: Out, x: seq<Piece>, ok: bool, y: seq<Piece>)
    requires a.Ok() && Emits(a, b, true, x) && Emits(b, c, ok, y)
    ensures Emits(a, c, ok, x + y)
  {
    hide Flat, Fates, Reached, Whole;
    FlatSum(x, y);
    FatesSum(x, y, a.written, a.Room(), a.maxSize);
    ReachedSum(x, y, a.written, a.Room(), a.maxSize);
    if a.writing {
      assert c.mem[a.end..] == b.mem[a.end..] == a.mem[a.end..];
      assert c.mem[..a.pos] == c.mem[..b.pos][..a.pos] == b.mem[..b.pos][..a.pos] == a.mem[..a.pos];
      if ok {
        PlacedThen(a.mem, b.mem, c.mem, a.pos, Flat(x), Flat(y));
      }
    } else {
      SumOfRemainders(a.written, |Flat(x)|, |Flat(y)|);
    }
  }

  lemma PlacedThen(a: bytes, b: bytes, c: bytes, at: nat, x: bytes, y: bytes)
    requires Placed(a, b, at, x) && Placed(b, c, at + |x|, y)
    ensures Placed(a, c, at, x + y)
  {
    assert b[..at + |x|] == a[..at] + x;
    assert b[at + |x| + |y|..] == a[at + |x + y|..];
  }

  lemma SumOfRemainders(w: nat, m: nat, n: nat)
    ensures ((w + m) % U32 + n) % U32 == (w + (m + n)) % U32
  {
    var q := (w + m) / U32;
    assert w + m == q * U32 + (w + m) % U32;
    Shifted((w + m) % U32 + n, q);
  }

  lemma Shifted(x: nat, q: nat)
    ensures (q * U32 + x) % U32 == x % U32
  {
  }

  /** One write that fits. */
  lemma EmitsPlaced(a: Out, after: bytes, bs: bytes)
    requires a.Ok() && a.writing && a.written + |bs| <= a.maxSize && |bs| <= a.Room() && Placed(a.mem, after, a.pos, bs)
    ensures Emits(a, a.(mem := after, pos := a.pos + |bs|, written := a.written + |bs|), true, [Raw(bs)])
  {
    One(Raw(bs));
    var hi := a.pos + |bs|;
    assert after[a.end..] == after[hi..][a.end - hi..] == a.mem[hi..][a.end - hi..];
  }

  lemma StreamFull(a: Out, bs: bytes)
    requires a.Ok() && a.writing && a.written + |bs| > a.maxSize
    ensures Emits(a, a, false, [Raw(bs)])
  {
    One(Raw(bs));
  }

  /** The write that leaves the memory; what it does there is not part of the model. */
  lemma MemoryOverrun(a: Out, bs: bytes)
    requires a.Ok() && a.writing && a.written + |bs| <= a.maxSize && |bs| > a.Room()
    ensures Emits(a, a.(over := true), false, [Raw(bs)])
  {
    One(Raw(bs));
  }

  lemma EmitsNothing(a: Out)
    requires a.Ok()
    ensures Emits(a, a, true, [])
  {
  }

  lemma EmitsFails(a: Out, b: Out, x: seq<Piece>, y: seq<Piece>)
    requires a.Ok() && Emits(a, b, false, x)
    ensures Emits(a, b, false, x + y)
  {
    hide Flat, Fates, Reached, Whole;
    FlatSum(x, y);
    FatesSum(x, y, a.written, a.Room(), a.maxSize);
    ReachedSum(x, y, a.written, a.Room(), a.maxSize);
  }

  /** Where the encoder gives up. */
  lemma EmitsStop(a: Out)
    requires a.Ok()
    ensures Emits(a, a, false, [Stop])
  {
    One(Stop);
  }

  /** Counting is all the same however the bytes are cut. */
  lemma CountedOnly(a: Out, ps: seq<Piece>, qs: seq<Piece>)
    requires a.Ok() && !a.writing && Whole(ps) && Whole(qs) && |Flat(ps)| == |Flat(qs)|
    ensures Emits(a, a.(written := (a.written + |Flat(qs)|) % U32), true, ps)
  {
  }

  class OStream {
    const buf: array?<byte>  // null marks a sizing stream
    const end: nat           // where the root stream's memory ends
    const maxSize: nat
    var pos: nat
    var written: nat
    var over: bool

    ghost function Now(): Out
      reads this, buf
    {
      Out(buf != null, if buf == null then [] else buf[..], pos, end, maxSize, written, over)
    }

    ghost predicate Valid()
      reads this, buf
    {
      Now().Ok()
    }

    /** pb_ostream_from_buffer. */
    constructor FromBuffer(buf: array<byte>, size: nat)
      requires size <= buf.Length && size < U32
      ensures Valid() && this.buf == buf && Now() == Out(true, buf[..], 0, size, size, 0, false)
    {
      this.buf, pos, end, maxSize, written, over := buf, 0, size, size, 0, false;
    }

    /** PB_OSTREAM_SIZING. */
    constructor Sizing()
      ensures Valid() && buf == null && written == 0
    {
      buf, pos, end, maxSize, written, over := null, 0, 0, 0, 0, false;
    }

    /** The substream pb_encode_submessage writes a payload through. */
    constructor Sub(buf: array<byte>, pos: nat, end: nat, maxSize: nat)
      requires maxSize < U32 && pos <= end <= buf.Length && end - pos < U32
      ensures Valid() && this.buf == buf && Now() == Out(true, buf[..], pos, end, maxSize, 0, false)
    {
      this.buf, this.pos, this.end, this.maxSize, written, over := buf, pos, end, maxSize, 0, false;
    }

    /** buf_write. */
    method BufWrite(src: bytes)
      requires buf != null && pos + |src| <= buf.Length
      modifies this`pos, buf
      ensures pos == old(pos) + |src|
      ensures Placed(old(buf[..]), buf[..], old(pos), src)
    {
      var dest := pos;
      pos := dest + |src|;
      forall i | 0 <= i < |src| { buf[dest + i] := src[i]; }
    }

    /** pb_write; without a buffer only count is used, and it wraps like size_t. A write that would leave the root
        stream's memory ends the run, with over set. */
    method Write(src: bytes, count: nat) returns (ok: bool)
      requires Valid() && count < U32 && (buf != null ==> |src| == count)
      modifies this, buf
      ensures buf != null ==> Emits(old(Now()), Now(), ok, [Raw(src)])
      ensures buf != null && !ok ==> Now() == old(Now()).(over := over)
      ensures buf == null ==> ok && Now() == old(Now()).(written := (old(written) + count) % U32)
    {
      hide Emits, Placed, Inside;
      ghost var a := Now();
      if count > 0 && buf != null {
        var sum := (written + count) % U32;
        if sum < written || sum > maxSize { StreamFull(a, src); return false; }
        if pos + count > end { MemoryOverrun(a, src); over := true; return false; }
        BufWrite(src);
        written := sum;
        EmitsPlaced(a, buf[..], src);
        return true;
      }
      if buf != null { WritesNothing(a, src); }
      written := (written + count) % U32;
      ok := true;
    }

    /** A write of bytes that are all there. */
    method WriteAll(src: bytes) returns (ok: bool)
      requires Valid() && |src| < U32
      modifies this, buf
      ensures Emits(old(Now()), Now(), ok, [Raw(src)])
    {
      ghost var a := Now();
      ok := Write(src, |src|);
      if buf == null {
        One(Raw(src));
        CountedOnly(a, [Raw(src)], [Raw(src)]);
      }
    }

    /** pb_encode_varint_32: the value is given as two 32-bit words. */
    method EncodeVarint32(low: nat, high: nat) returns (ok: bool)
      requires Valid() && low < U32 && high < U32
      modifies this, buf
      ensures Emits(old(Now()), Now(), ok, [Raw(Minimal(low + U32 * high))])
    {
      var buffer := VarintBytes(low, high);
      Minimal64(low + U32 * high);
      ok := WriteAll(buffer);
    }

    /** pb_encode_varint. */
    method EncodeVarint(v: nat) returns (ok: bool)
      requires Valid() && v < U64
      modifies this, buf
      ensures Emits(old(Now()), Now(), ok, [Raw(Minimal(v))])
    {
      if v <= 0x7F {
        ok := WriteAll([v]);
      } else {
        ok := EncodeVarint32(v % U32, v / U32);
      }
    }
  }

  lemma WritesNothing(a: Out, bs: bytes)
    requires a.Ok() && a.writing && bs == []
    ensures Emits(a, a, true, [Raw(bs)])
  {
    One(Raw(bs));
  }

  /** The two loops of pb_encode_varint_32, which avoid 64-bit shifts: they produce the minimal form. */
  method VarintBytes(low0: nat, high0: nat) returns (buffer: bytes)
    requires low0 < U32 && high0 < U32
    ensures buffer == Minimal(low0 + U32 * high0)
  {
    hide Minimal, LowWords;
    ghost var v := low0 + U32 * high0;
    ghost var rest: nat := v;  // what the bytes still to come stand for
    var low: nat, high: nat := low0 / 128, high0;
    var b: byte := low0 % 128;
    buffer := [];
    FirstWords(low0, high0);
    while |buffer| < 4 && (low != 0 || high != 0)
      invariant |buffer| <= 4 && high == high0
      invariant LowWords(rest, b, low, high, |buffer|)
      invariant Minimal(v) == buffer + Minimal(rest)
    {
      LowStep(rest, b, low, high, |buffer|);
      MinimalStep(v, buffer, rest, b);
      buffer := buffer + [128 + b];
      b := low % 128;
      low := low / 128;
      rest := rest / 128;
    }
    if high != 0 {
      BothWords(rest, b, low, high, |buffer|);
      buffer := HighBytes(v, buffer, rest, b + 16 * (high % 8), high / 8);
    } else {
      LastByte(rest, b, low, |buffer|);
      buffer := buffer + [b];
    }
  }

  /** The second loop, over the high word. */
  method HighBytes(ghost v: nat, done: bytes, ghost rest0: nat, b0: byte, high0: nat) returns (buffer: bytes)
    requires b0 < 128 && rest0 == b0 + 128 * high0 && Minimal(v) == done + Minimal(rest0)
    ensures buffer == Minimal(v)
  {
    hide Minimal;
    ghost var rest := rest0;
    var b: byte, high: nat := b0, high0;
    buffer := done;
    while high != 0
      invariant b < 128 && rest == b + 128 * high
      invariant Minimal(v) == buffer + Minimal(rest)
    {
      MinimalStep(v, buffer, rest, b);
      buffer := buffer + [128 + b];
      b := high % 128;
      high := high / 128;
      rest := rest / 128;
    }
    MinimalSmall(b);
    buffer := buffer + [b];
  }

  /** The weight of the high word while byte i is being built; from byte 4 on it shares that byte. */
  ghost function Weight(i: nat): nat {
    match i case 0 => U32 case 1 => 0x200_0000 case 2 => 0x4_0000 case 3 => 0x800 case _ => 16
  }

  /** Byte i under construction is b, low and high are the words not yet taken, rest is what all three stand for. */
  ghost predicate LowWords(rest: nat, b: byte, low: nat, high: nat, i: nat) {
    && b < 128 && 128 * low + b < Weight(i)
    && rest == b + 128 * low + Weight(i) * high
  }

  lemma LowStep(rest: nat, b: byte, low: nat, high: nat, i: nat)
    requires i < 4 && LowWords(rest, b, low, high, i) && (low != 0 || high != 0)
    ensures rest >= 128 && rest % 128 == b
    ensures LowWords(rest / 128, low % 128, low / 128, high, i + 1)
  {
    var w := if i == 0 then 0x200_0000 else if i == 1 then 0x4_0000 else if i == 2 then 0x800 else 16;
    assert Weight(i) == 128 * w && Weight(i + 1) == w;
    assert Weight(i) * high == 128 * (w * high) by { Triple(w, high); }
    assert w * high >= high;
  }

  lemma Triple(w: nat, high: nat)
    ensures (128 * w) * high == 128 * (w * high)
  {
  }

  lemma FirstWords(low: nat, high: nat)
    requires low < U32
    ensures LowWords(low + U32 * high, low % 128, low / 128, high, 0)
  {
  }

  /** Behind four bytes the rest of the low word and three bits of the high word share one. */
  lemma BothWords(rest: nat, b: byte, low: nat, high: nat, i: nat)
    requires i <= 4 && LowWords(rest, b, low, high, i) && (i < 4 ==> low == 0 && high == 0) && high != 0
    ensures b + 16 * (high % 8) < 128 && rest == b + 16 * (high % 8) + 128 * (high / 8)
  {
  }

  lemma LastByte(rest: nat, b: byte, low: nat, i: nat)
    requires i <= 4 && LowWords(rest, b, low, 0, i) && (i < 4 ==> low == 0)
    ensures b < 128 && rest == b && Minimal(rest) == [b]
  {
  }

  lemma MinimalSmall(b: byte)
    requires b < 128
    ensures Minimal(b) == [b]
  {
  }

  lemma MinimalStep(v: nat, done: bytes, rest: nat, b: byte)
    requires Minimal(v) == done + Minimal(rest) && rest >= 128 && rest % 128 == b
    ensures Minimal(v) == (done + [128 + b]) + Minimal(rest / 128)
  {
  }
}
