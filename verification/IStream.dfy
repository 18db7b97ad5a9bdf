/** The input stream of pb_decode.c over a memory buffer: reads, varints, tags, skipping, substreams. */
module IStreams {
  import opened Prelude
  import opened Varint

  /** 2 to the n, the weight a left shift by n gives. */
  function Pow2(n: nat): (p: nat)
    ensures p >= 1
  {
    if n == 0 then 1 else 2 * Pow2(n - 1)
  }

  lemma {:induction false} Pow2Groups(n: nat)
    ensures Pow2(7 * n) == Pow128(n)
  {
    if n > 0 {
      Pow2Groups(n - 1);
      var k := 7 * n - 7;
      assert Pow2(k + 2) == 4 * Pow2(k) && Pow2(k + 4) == 4 * Pow2(k + 2) && Pow2(k + 6) == 4 * Pow2(k + 4);
    }
  }

  // ---------- what reading does to the bytes ahead ----------

  /** pb_skip_varint: any number of continuation bytes. */
  function AfterVarint(bs: bytes): (r: Option<bytes>)
    ensures r.Some? ==> |r.value| < |bs|
  {
    if Scan(bs) < |bs| then Some(bs[Scan(bs) + 1..]) else None
  }

  /** A length prefix and that many bytes: the payload and what follows it. */
  function Delimited(bs: bytes): (r: Option<(bytes, bytes)>)
    ensures r.Some? ==> |r.value.0| + |r.value.1| < |bs| && |r.value.0| < U32
  {
    match Read32(bs)
    case Some((n, rest)) => ShortRefinesLong(bs); if n <= |rest| then Some((rest[..n], rest[n..])) else None
    case None => None
  }

  function AfterBytes(bs: bytes, n: nat): (r: Option<bytes>) {
    if n <= |bs| then Some(bs[n..]) else None
  }

  /** pb_decode_tag: field number and wire type. */
  function ReadTag(bs: bytes): (r: Option<(nat, nat, bytes)>)
    ensures r.Some? ==> |r.value.2| < |bs|
  {
    match Read32(bs)
    case Some((t, rest)) => Some((t / 8, t % 8, rest))
    case None => None
  }

  const WT_VARINT := 0
  const WT_64BIT := 1
  const WT_STRING := 2
  const WT_32BIT := 5

  /** pb_skip_field. */
  function SkipField(bs: bytes, wt: nat): (r: Option<bytes>)
    ensures r.Some? ==> |r.value| <= |bs|
  {
    if wt == WT_VARINT then AfterVarint(bs)
    else if wt == WT_64BIT then AfterBytes(bs, 8)
    else if wt == WT_STRING then
      match Delimited(bs) case Some((_, rest)) => Some(rest) case None => None
    else if wt == WT_32BIT then AfterBytes(bs, 4)
    else None
  }

  class IStream {
    const data: bytes
    var pos: nat
    var left: nat

    ghost predicate Valid()
      reads this
    {
      pos + left <= |data|
    }

    function Rest(): (r: bytes)
      reads this
      requires Valid()
      ensures |r| == left
    {
      data[pos..pos + left]
    }

    /** pb_istream_from_buffer. */
    constructor FromBuffer(data: bytes)
      ensures Valid() && this.data == data && Rest() == data && pos == 0
    {
      this.data, pos, left := data, 0, |data|;
    }

    constructor Sub(data: bytes, pos: nat, left: nat)
      requires pos + left <= |data|
      ensures Valid() && this.data == data && this.pos == pos && this.left == left
    {
      this.data, this.pos, this.left := data, pos, left;
    }

    /** pb_read: all of buf is filled or nothing is consumed. */
    method Read(count: nat) returns (ok: bool, buf: bytes)
      requires Valid()
      modifies this
      ensures Valid() && pos + left == old(pos + left)
      ensures ok <==> count <= old(left)
      ensures ok ==> buf == old(Rest())[..count] && Rest() == old(Rest())[count..]
      ensures !ok ==> pos == old(pos)
    {
      if count == 0 { return true, []; }
      if left < count { return false, []; }
      buf := data[pos..pos + count];
      pos := pos + count;
      left := left - count;
      ok := true;
    }

    /** pb_readbyte. */
    method ReadByte() returns (ok: bool, b: byte)
      requires Valid()
      modifies this
      ensures Valid() && pos + left == old(pos + left)
      ensures ok <==> old(left) > 0
      ensures ok ==> b == old(Rest())[0] && Rest() == old(Rest())[1..] && pos == old(pos) + 1
      ensures !ok ==> pos == old(pos)
    {
      if left == 0 { return false, 0; }
      b := data[pos];
      pos := pos + 1;
      left := left - 1;
      ok := true;
    }

    /** pb_decode_varint. */
    method DecodeVarint() returns (ok: bool, dest: nat)
      requires Valid()
      modifies this
      ensures Valid() && pos + left == old(pos + left)
      ensures ok <==> Read64(old(Rest())).Some?
      ensures ok ==> Read64(old(Rest())) == Some((dest, Rest()))
    {
      hide Leb, Scan, Pow2, Read64;
      ghost var bs := Rest();
      Nothing(bs);
      var bitpos, result := 0, 0;
      ghost var n := 0;
      var b: byte := 0x80;
      while b >= 0x80
        invariant Valid() && pos == old(pos) + n && left == old(left) - n
        invariant 0 <= n <= |bs| && bitpos == 7 * n
        invariant b == if n == 0 then 0x80 else bs[n - 1]
        invariant forall i | 0 <= i < n - 1 :: bs[i] >= 0x80
        invariant n <= 9 || (n == 10 && bs[9] <= 1)
        invariant result == Leb(bs[..n])
        decreases left, b
      {
        var got;
        got, b := ReadByte();
        if !got { Unfinished(bs, n); return false, 0; }
        if bitpos >= 63 && b > 1 { TooLong(bs); return false, 0; }
        GroupAdded(bs, n, result, b);
        result := (result + (b % 128) * Pow2(bitpos)) % U64;
        bitpos := bitpos + 7;
        n := n + 1;
      }
      Finished(bs, n);
      return true, result;
    }

    /** pb_decode_varint32_eof; eof tells that not even one byte was left. */
    method DecodeVarint32Eof() returns (ok: bool, dest: nat, eof: bool)
      requires Valid()
      modifies this
      ensures Valid() && pos + left == old(pos + left)
      ensures ok <==> Read32(old(Rest())).Some?
      ensures ok ==> Read32(old(Rest())) == Some((dest, Rest()))
      ensures eof <==> old(left) == 0
    {
      hide Short, Low32, Leb, Pow2, Scan, Extension;
      ghost var bs := Rest();
      var got, b := ReadByte();
      if !got { return false, 0, left == 0; }
      FirstGroup(bs);
      if b < 0x80 {
        ScanIs(bs, 0);
        return true, b, false;
      }
      var bitpos := 7;
      var result: nat := b % 128;
      ghost var n := 1;
      while b >= 0x80
        invariant Valid() && pos == old(pos) + n && left == old(left) - n
        invariant 1 <= n <= |bs| && bitpos == 7 * n
        invariant b == bs[n - 1]
        invariant forall i | 0 <= i < n - 1 :: bs[i] >= 0x80
        invariant Short(bs[..n]) && result == Low32(bs[..n])
        decreases left, b
      {
        got, b := ReadByte();
        if !got { ScanAtLeast(bs, n); return false, 0, false; }
        ShortGrows(bs, n, result, b);
        if bitpos >= 32 {
          var valid := b % 128 == 0 || (result >= U31 && b == if bitpos < 63 then 0xFF else 1);
          if bitpos >= 64 || !valid { Overflows(bs, n); return false, 0, false; }
        } else if bitpos == 28 {
          if b % 128 >= 16 && b % 128 < 120 { Overflows(bs, n); return false, 0, false; }
          result := result + (b as int % 16) * Pow2(bitpos);
        } else {
          result := result + (b as int % 128) * Pow2(bitpos);
        }
        bitpos := bitpos + 7;
        n := n + 1;
      }
      ScanIs(bs, n - 1);
      return true, result, false;
    }

    /** pb_decode_varint32. */
    method DecodeVarint32() returns (ok: bool, dest: nat)
      requires Valid()
      modifies this
      ensures Valid() && pos + left == old(pos + left)
      ensures ok <==> Read32(old(Rest())).Some?
      ensures ok ==> Read32(old(Rest())) == Some((dest, Rest()))
    {
      var eof;
      ok, dest, eof := DecodeVarint32Eof();
    }

    /** pb_skip_varint. */
    method SkipVarint() returns (ok: bool)
      requires Valid()
      modifies this
      ensures Valid() && pos + left == old(pos + left)
      ensures ok <==> AfterVarint(old(Rest())).Some?
      ensures ok ==> AfterVarint(old(Rest())) == Some(Rest())
    {
      hide Scan;
      ghost var bs := Rest();
      ghost var n := 0;
      var b: byte := 0x80;
      while b >= 0x80
        invariant Valid() && pos == old(pos) + n && left == old(left) - n
        invariant 0 <= n <= |bs|
        invariant b == if n == 0 then 0x80 else bs[n - 1]
        invariant forall i | 0 <= i < n - 1 :: bs[i] >= 0x80
        decreases left, b
      {
        if n > 0 { ScanAtLeast(bs, n); }
        var buf;
        ok, buf := Read(1);
        if !ok { return; }
        b := buf[0];
        n := n + 1;
      }
      ScanIs(bs, n - 1);
      ok := true;
    }

    /** pb_skip_string. */
    method SkipString() returns (ok: bool)
      requires Valid()
      modifies this
      ensures Valid() && pos + left == old(pos + left)
      ensures ok <==> Delimited(old(Rest())).Some?
      ensures ok ==> Delimited(old(Rest())).value.1 == Rest()
    {
      var length, buf;
      ok, length := DecodeVarint32();
      if !ok { return; }
      ok, buf := Read(length);
    }

    /** pb_skip_field. */
    method Skip(wt: nat) returns (ok: bool)
      requires Valid()
      modifies this
      ensures Valid() && pos + left == old(pos + left)
      ensures ok <==> SkipField(old(Rest()), wt).Some?
      ensures ok ==> SkipField(old(Rest()), wt) == Some(Rest())
    {
      var buf;
      if wt == WT_VARINT { ok := SkipVarint(); }
      else if wt == WT_64BIT { ok, buf := Read(8); }
      else if wt == WT_STRING { ok := SkipString(); }
      else if wt == WT_32BIT { ok, buf := Read(4); }
      else { ok := false; }
    }

    /** pb_decode_tag. */
    method DecodeTag() returns (ok: bool, wt: nat, tag: nat, eof: bool)
      requires Valid()
      modifies this
      ensures Valid() && pos + left == old(pos + left)
      ensures ok <==> ReadTag(old(Rest())).Some?
      ensures ok ==> ReadTag(old(Rest())) == Some((tag, wt, Rest()))
      ensures eof <==> old(left) == 0
    {
      var temp;
      ok, temp, eof := DecodeVarint32Eof();
      tag, wt := if ok then temp / 8 else 0, if ok then temp % 8 else 0;
    }

    /** pb_make_string_substream: the payload leaves this stream's count at once, its cursor only at the close. */
    method MakeSubstream() returns (ok: bool, sub: IStream)
      requires Valid()
      modifies this
      ensures Valid()
      ensures ok <==> Delimited(old(Rest())).Some?
      ensures ok ==> fresh(sub) && sub.Valid() && sub.data == data && sub.pos == pos
      ensures ok ==> pos + sub.left + left == old(pos + left)
      ensures ok ==> Delimited(old(Rest())) == Some((sub.Rest(), data[pos + sub.left..pos + sub.left + left]))
      ensures !ok ==> pos + left == old(pos + left)
    {
      var size;
      sub := this;
      ok, size := DecodeVarint32();
      if !ok { return; }
      if left < size { return false, this; }
      sub := new IStream.Sub(data, pos, size);
      ghost var rest := Rest();
      left := left - size;
      assert rest[..size] == sub.Rest() && rest[size..] == data[pos + size..pos + size + left];
    }

    /** pb_close_string_substream: what the substream did not read is skipped. */
    method CloseSubstream(sub: IStream) returns (ok: bool)
      requires Valid() && sub.Valid() && sub != this && sub.data == data
      requires sub.pos + sub.left + left <= |data|
      modifies this, sub
      ensures ok && Valid() && pos == old(sub.pos + sub.left) && left == old(left)
      ensures sub.left == 0
    {
      if sub.left != 0 {
        var buf;
        ok, buf := sub.Read(sub.left);
        if !ok { return; }
      }
      pos := sub.pos;
      ok := true;
    }
  }

  // ---------- loop steps ----------

  lemma {:induction false} ScanAtLeast(bs: bytes, n: nat)
    requires n <= |bs| && forall i | 0 <= i < n :: bs[i] >= 0x80
    ensures Scan(bs) >= n
  {
    if n > 0 { ScanAtLeast(bs[1..], n - 1); }
  }

  lemma ScanIs(bs: bytes, n: nat)
    requires n < |bs| && bs[n] < 0x80 && forall i | 0 <= i < n :: bs[i] >= 0x80
    ensures Scan(bs) == n
  {
    ScanAtLeast(bs, n);
  }

  lemma GroupAdded(bs: bytes, n: nat, result: nat, b: byte)
    requires n < |bs| && b == bs[n] && result == Leb(bs[..n])
    requires n < 9 || (n == 9 && b <= 1)
    ensures Leb(bs[..n + 1]) == (result + (b % 128) * Pow2(7 * n)) % U64
  {
    Pow2Groups(n);
    LebPush(bs, n);
    Pow128Table();
    LebBound(bs[..n]);
    LebBound(bs[..n + 1]);
    if n < 9 { Pow128Mono(n + 1, 9); }
  }

  lemma LebPush(bs: bytes, n: nat)
    requires n < |bs|
    ensures Leb(bs[..n + 1]) == Leb(bs[..n]) + (bs[n] % 128) * Pow128(n)
  {
    LebSplit(bs[..n + 1], n);
    assert bs[..n + 1][..n] == bs[..n] && bs[..n + 1][n..] == [bs[n]];
    assert Leb([bs[n]]) == bs[n] % 128;
  }

  lemma Unfinished(bs: bytes, n: nat)
    requires n == |bs| && (n > 0 ==> bs[n - 1] >= 0x80) && forall i | 0 <= i < n - 1 :: bs[i] >= 0x80
    ensures Read64(bs).None?
  {
    ScanAtLeast(bs, n);
  }

  lemma TooLong(bs: bytes)
    requires 9 < |bs| && bs[9] > 1 && forall i | 0 <= i < 9 :: bs[i] >= 0x80
    ensures Read64(bs).None?
  {
    ScanAtLeast(bs, 9);
  }

  lemma Finished(bs: bytes, n: nat)
    requires 0 < n <= |bs| && bs[n - 1] < 0x80 && forall i | 0 <= i < n - 1 :: bs[i] >= 0x80
    requires n <= 9 || (n == 10 && bs[9] <= 1)
    ensures Read64(bs) == Some((Leb(bs[..n]), bs[n..]))
  {
    ScanIs(bs, n - 1);
  }

  lemma Nothing(bs: bytes)
    ensures Leb(bs[..0]) == 0
  {
  }

  lemma FirstGroup(bs: bytes)
    requires bs != []
    ensures Short(bs[..1]) && Low32(bs[..1]) == bs[0] % 128
  {
    LebPush(bs, 0);
  }

  /** How acceptance and value of the short reader change with byte n. */
  lemma ShortGrows(bs: bytes, n: nat, result: nat, b: byte)
    requires 1 <= n < |bs| && b == bs[n] && Short(bs[..n]) && result == Low32(bs[..n])
    ensures n < 4 ==> Short(bs[..n + 1]) && Low32(bs[..n + 1]) == result + (b as int % 128) * Pow2(7 * n)
    ensures n == 4 ==> (Short(bs[..n + 1]) <==> b % 128 < 16 || b % 128 >= 120)
    ensures n == 4 ==> Low32(bs[..n + 1]) == result + (b as int % 16) * Pow2(7 * n)
    ensures n >= 5 ==>
      (Short(bs[..n + 1]) <==> n < 10 && (b % 128 == 0 || (result >= U31 && b == if n < 9 then 255 else 1)))
    ensures n >= 5 ==> Low32(bs[..n + 1]) == result
  {
    Pow2Groups(n);
    LebPush(bs, n);
    if n == 4 {
      Pow128Table();
      assert bs[..5][..4] == bs[..4];
    } else if n > 4 {
      assert bs[..n][..4] == bs[..n + 1][..4];
    }
  }

  lemma Overflows(bs: bytes, n: nat)
    requires n < |bs| && !Short(bs[..n + 1]) && forall i | 0 <= i < n :: bs[i] >= 0x80
    ensures Read32(bs).None?
  {
    ScanAtLeast(bs, n);
    var m := Scan(bs) + 1;
    if m <= |bs| && Short(bs[..m]) {
      assert bs[..m][..n + 1] == bs[..n + 1];
      ShortPrefix(bs[..m], n + 1);
    }
  }

  lemma ShortPrefix(ds: bytes, n: nat)
    requires Short(ds) && n <= |ds|
    ensures Short(ds[..n])
  {
    if n >= 5 {
      assert ds[..n][..4] == ds[..4];
    }
  }
}
