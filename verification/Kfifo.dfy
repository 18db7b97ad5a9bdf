/** The byte ring of fifo.h with interrupts disabled: a bounded queue of bytes behind free-running 32-bit counters. */
module Kfifos {
  import opened Prelude

  /** A power of two, as kfifo_init demands; it divides the counters' modulus. */
  predicate RingSize(size: nat) {
    0 < size < U32 && U32 % size == 0
  }

  function Min(x: nat, y: nat): nat { if x < y then x else y }

  /** Unsigned 32-bit subtraction. */
  function Sub32(x: int, y: int): nat { (x - y) % U32 }

  // ---------- ring arithmetic ----------

  lemma {:induction false} ModPlus(x: int, q: int, m: nat)
    requires m > 0
    ensures (x + q * m) % m == x % m
  {
    var k, r := x / m, x % m;
    assert x + q * m == (k + q) * m + r;
    ModUnique(x + q * m, k + q, r, m);
  }

  lemma ModUnique(x: int, q: int, r: nat, m: nat)
    requires 0 < m && r < m && x == q * m + r
    ensures x % m == r
  {
    var q1, r1 := x / m, x % m;
    assert q1 * m + r1 == q * m + r;
    if q1 > q { Product(q1 - q, m); }
    if q1 < q { Product(q - q1, m); }
  }

  lemma Product(d: int, m: nat)
    requires d >= 1 && m > 0
    ensures d * m >= m
  {
  }

  /** A counter and its 32-bit image select the same slot. */
  lemma SlotOfImage(total: nat, j: nat, size: nat)
    requires RingSize(size)
    ensures (total % U32 + j) % size == (total + j) % size
    ensures total % U32 % size == total % size
  {
    var q, c := total / U32, U32 / size;
    assert U32 == c * size;
    assert total + j == (total % U32 + j) + (q * c) * size by { assert q * (c * size) == (q * c) * size; }
    ModPlus(total % U32 + j, q * c, size);
    assert total == total % U32 + (q * c) * size;
    ModPlus(total % U32, q * c, size);
  }

  /** Positions less than a ring apart lie in different slots. */
  lemma DifferentSlots(i: nat, j: nat, size: nat)
    requires size > 0 && i < j < i + size
    ensures i % size != j % size
  {
    if i % size == j % size {
      var d := j / size - i / size;
      assert j - i == d * size;
      if d >= 1 { Product(d, size); }
      if d <= 0 { Product(1 - d, size); }
    }
  }

  /** Slot of a position that follows another. */
  lemma NextSlot(total: nat, j: nat, size: nat)
    requires size > 0 && j < size
    ensures (total + j) % size == if total % size + j < size then total % size + j else total % size + j - size
  {
    var q, r := total / size, total % size;
    assert total == q * size + r;
    if r + j < size { ModUnique(total + j, q, r + j, size); }
    else {
      assert (q + 1) * size == q * size + size;
      ModUnique(total + j, q + 1, r + j - size, size);
    }
  }

  /** Counter differences survive truncation to 32 bits. */
  lemma Difference(x: nat, y: nat)
    requires y <= x < y + U32
    ensures Sub32(x % U32, y % U32) == x - y
  {
    var a, b := x / U32, y / U32;
    assert x % U32 - y % U32 == (x - y) + (b - a) * U32;
    ModPlus(x - y, b - a, U32);
  }

  lemma Advance(x: nat, n: nat)
    ensures (x % U32 + n) % U32 == (x + n) % U32
  {
    assert x + n == (x % U32 + n) + (x / U32) * U32;
    ModPlus(x % U32 + n, x / U32, U32);
  }

  // ---------- the queue ----------

  /** The ring holds the bytes from position taken on. */
  ghost predicate Stored(ring: seq<byte>, stream: seq<byte>, taken: nat) {
    |ring| > 0 && forall i | taken <= i < |stream| :: ring[i % |ring|] == stream[i]
  }

  /** The ring also holds src right after. */
  ghost predicate StoredNext(ring: seq<byte>, total: nat, src: seq<byte>) {
    |ring| > 0 && forall j | 0 <= j < |src| :: ring[(total + j) % |ring|] == src[j]
  }

  function Splice(s: seq<byte>, at: nat, src: seq<byte>): (r: seq<byte>)
    requires at + |src| <= |s|
    ensures |r| == |s|
  {
    s[..at] + src + s[at + |src|..]
  }

  method CopyTo(dst: array<byte>, at: nat, src: seq<byte>)
    requires at + |src| <= dst.Length
    modifies dst
    ensures dst[..] == Splice(old(dst[..]), at, src)
  {
    forall i | 0 <= i < |src| { dst[at + i] := src[i]; }
  }

  /** Two splices write src behind the stream and disturb nothing unread. */
  lemma SplicedIn(ring: seq<byte>, stream: seq<byte>, taken: nat, src: seq<byte>, at: nat, l: nat)
    requires 0 < |ring| && taken <= |stream| && Stored(ring, stream, taken)
    requires |src| <= |ring| && |stream| + |src| <= taken + |ring|
    requires at == |stream| % |ring| && l == Min(|src|, |ring| - at)
    ensures var after := Splice(Splice(ring, at, src[..l]), 0, src[l..]);
            StoredNext(after, |stream|, src) && Stored(after, stream, taken)
  {
    var after := Splice(Splice(ring, at, src[..l]), 0, src[l..]);
    forall j | 0 <= j < |src| ensures after[(|stream| + j) % |ring|] == src[j] {
      NextSlot(|stream|, j, |ring|);
      TwiceAt(ring, src, at, l, (|stream| + j) % |ring|);
    }
    forall i | taken <= i < |stream| ensures after[i % |ring|] == stream[i] {
      Untouched(i, taken, |stream|, |ring|, at, l, |src|);
      TwiceAt(ring, src, at, l, i % |ring|);
    }
  }

  lemma TwiceAt(ring: seq<byte>, src: seq<byte>, at: nat, l: nat, k: nat)
    requires at + l <= |ring| && l <= |src| && |src| - l <= at && k < |ring|
    ensures Splice(Splice(ring, at, src[..l]), 0, src[l..])[k]
            == if at <= k < at + l then src[k - at] else if k < |src| - l then src[l + k] else ring[k]
  {
  }

  lemma Untouched(i: nat, taken: nat, total: nat, size: nat, at: nat, l: nat, n: nat)
    requires 0 < size && taken <= i < total && total + n <= taken + size
    requires at == total % size && l == Min(n, size - at)
    ensures !(at <= i % size < at + l) && !(0 <= i % size < n - l)
  {
    var s := i % size;
    if at <= s < at + l {
      NextSlot(total, s - at, size);
      DifferentSlots(i, total + (s - at), size);
    } else if s < n - l {
      NextSlot(total, s + l, size);
      DifferentSlots(i, total + (s + l), size);
    }
  }

  /** The bytes from position taken on, read in two pieces. */
  lemma ReadBack(ring: seq<byte>, stream: seq<byte>, taken: nat, at: nat, l: nat, len: nat)
    requires 0 < |ring| && taken <= |stream| <= taken + |ring| && Stored(ring, stream, taken)
    requires len <= |stream| - taken && at == taken % |ring| && l == Min(len, |ring| - at)
    ensures ring[at..at + l] + ring[..len - l] == stream[taken..][..len]
  {
    var dst := ring[at..at + l] + ring[..len - l];
    forall j | 0 <= j < len ensures dst[j] == stream[taken + j] {
      NextSlot(taken, j, |ring|);
      assert ring[(taken + j) % |ring|] == stream[taken + j];
    }
  }

  class Kfifo {
    const size: nat
    const mask: nat
    const buffer: array<byte>
    var inn: nat
    var out: nat
    ghost var stream: seq<byte>  // every byte ever put
    ghost var taken: nat         // how many of them have been got

    ghost predicate Valid()
      reads this, buffer
    {
      && RingSize(size) && mask == size - 1 && buffer.Length == size
      && taken <= |stream| <= taken + size
      && inn == |stream| % U32 && out == taken % U32
      && Stored(buffer[..], stream, taken)
    }

    /** The bytes put and not yet got, oldest first. */
    ghost function Contents(): seq<byte>
      reads this, buffer
      requires Valid()
    {
      stream[taken..]
    }

    /** kfifo_init on a given buffer. */
    constructor Init(buffer: array<byte>, size: nat)
      requires RingSize(size) && buffer.Length == size
      ensures Valid() && Contents() == [] && this.buffer == buffer && this.size == size
    {
      this.buffer, this.size := buffer, size;
      inn, out, mask := 0, 0, size - 1;
      stream, taken := [], 0;
    }

    /** memcpy into the ring, in at most two pieces. */
    method CopyIn(src: seq<byte>)
      requires Valid() && |src| <= size && |stream| + |src| <= taken + size
      modifies buffer
      ensures StoredNext(buffer[..], |stream|, src) && Stored(buffer[..], stream, taken)
    {
      hide RingSize, Valid, Stored, StoredNext, Splice;
      Facts();
      var at := inn % size;
      SlotOfImage(|stream|, 0, size);
      var l := Min(|src|, size - at);
      SplicedIn(buffer[..], stream, taken, src, at, l);
      CopyTo(buffer, at, src[..l]);
      CopyTo(buffer, 0, src[l..]);
    }

    lemma Facts()
      requires Valid()
      ensures RingSize(size) && 0 < size < U32 && buffer.Length == size && inn == |stream| % U32 && taken <= |stream|
      ensures Stored(buffer[..], stream, taken)
    {
    }

    /** kfifo_put. */
    method Put(src: seq<byte>) returns (n: nat)
      requires Valid() && |src| < U32
      modifies this, buffer
      ensures Valid()
      ensures n == Min(|src|, size - |old(Contents())|)
      ensures Contents() == old(Contents()) + src[..n]
    {
      hide RingSize, Stored, StoredNext;
      Facts();
      FreeSpace(size, |stream|, taken);
      n := Min(|src|, (size - inn + out) % U32);
      CopyIn(src[..n]);
      Advance(|stream|, n);
      inn := (inn + n) % U32;
      Appended(buffer[..], stream, taken, src[..n]);
      stream := stream + src[..n];
    }

    /** kfifo_copy_out: len bytes from counter value off on, in at most two pieces. */
    method CopyOut(off: nat, len: nat) returns (dst: seq<byte>)
      requires Valid() && off == out && len <= |Contents()|
      ensures dst == Contents()[..len]
    {
      hide RingSize, Stored;
      var at := off % size;
      SlotOfImage(taken, 0, size);
      var l := Min(len, size - at);
      dst := buffer[at..at + l] + buffer[..len - l];
      ReadBack(buffer[..], stream, taken, at, l, len);
      assert buffer[..][at..at + l] == buffer[at..at + l] && buffer[..][..len - l] == buffer[..len - l];
    }

    /** kfifo_get. */
    method Get(len: nat) returns (dst: seq<byte>)
      requires Valid() && len < U32
      modifies this
      ensures Valid() && buffer[..] == old(buffer[..])
      ensures |dst| == Min(len, |old(Contents())|)
      ensures old(Contents()) == dst + Contents()
    {
      Difference(|stream|, taken);
      var n := Min(len, Sub32(inn, out));
      dst := CopyOut(out, n);
      Advance(taken, n);
      out := (out + n) % U32;
      taken := taken + n;
    }

    /** kfifo_out_peek. */
    method OutPeek(len: nat) returns (dst: seq<byte>)
      requires Valid() && len < U32
      ensures dst == Contents()[..Min(len, |Contents()|)]
    {
      Difference(|stream|, taken);
      var l := Sub32(inn, out);
      dst := CopyOut(out, if len > l then l else len);
    }

    /** kfifo_data_size. */
    method DataSize() returns (n: nat)
      requires Valid()
      ensures n == |Contents()|
    {
      Difference(|stream|, taken);
      n := Sub32(inn, out);
    }

    /** kfifo_unused. */
    method Unused() returns (n: nat)
      requires Valid()
      ensures n == size - |Contents()|
    {
      Difference(|stream|, taken);
      n := Sub32(mask + 1, Sub32(inn, out));
    }
  }

  lemma Appended(ring: seq<byte>, stream: seq<byte>, taken: nat, src: seq<byte>)
    requires taken <= |stream| && Stored(ring, stream, taken) && StoredNext(ring, |stream|, src)
    ensures Stored(ring, stream + src, taken) && (stream + src)[taken..] == stream[taken..] + src
  {
    forall i | taken <= i < |stream + src| ensures ring[i % |ring|] == (stream + src)[i] {
      if i >= |stream| { assert ring[(|stream| + (i - |stream|)) % |ring|] == src[i - |stream|]; }
    }
  }

  lemma FreeSpace(size: nat, put: nat, got: nat)
    requires got <= put <= got + size && size < U32
    ensures (size - put % U32 + got % U32) % U32 == size - (put - got)
  {
    var a, b := put / U32, got / U32;
    assert size - put % U32 + got % U32 == (size - (put - got)) + (a - b) * U32;
    ModPlus(size - (put - got), a - b, U32);
  }
}
