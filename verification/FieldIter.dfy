/** The field iterator of pb_common.c over descriptors packed as in pb.h. */
module FieldIters {
  import opened Prelude

  /** What a descriptor says of one field. The size member may lie on either side of the data. */
  datatype FieldInfo = FieldInfo(tag: nat, typ: nat, dataOffset: nat, dataSize: nat, sizeOffset: int, arraySize: nat)

  /** How many 32-bit words a field takes: the argument of PB_BIND. */
  datatype Width = W1 | W2 | W4 | W8

  const LTYPE_SUBMESSAGE := 8
  const LTYPE_SUBMSG_W_CB := 9
  const LTYPE_EXTENSION := 10

  function LTypeOf(typ: nat): nat { typ % 16 }

  function HType(typ: nat): nat { typ / 16 % 4 }

  predicate IsSubmsg(typ: nat) { LTypeOf(typ) == LTYPE_SUBMESSAGE || LTypeOf(typ) == LTYPE_SUBMSG_W_CB }

  predicate IsExtension(typ: nat) { LTypeOf(typ) == LTYPE_EXTENSION }

  predicate IsRequired(typ: nat) { HType(typ) == 0 }

  function Len(w: Width): nat {
    match w case W1 => 1 case W2 => 2 case W4 => 4 case W8 => 8
  }

  /** PB_FIELDINFO_ASSERT_n, for 16-bit pb_size_t. The wide forms test size_offset only after the cast
      to int_least8_t. */
  predicate Fits(f: FieldInfo, w: Width) {
    && f.typ < 256
    && match w
       case W1 => f.tag < 64 && f.dataOffset < 256 && 0 <= f.sizeOffset < 16 && f.dataSize < 16 && f.arraySize < 2
       case W2 =>
         f.tag < 1024 && f.dataOffset < U16 && 0 <= f.sizeOffset < 16 && f.dataSize < 4096 && f.arraySize < 4096
       case _ => f.tag < U16 && f.dataOffset < U16 && f.sizeOffset % 256 < 128 && f.dataSize < U16 && f.arraySize < U16
  }

  /** PB_FIELDINFO_n. */
  function Pack(f: FieldInfo, w: Width): (ws: seq<nat>)
    ensures |ws| == Len(w)
  {
    var low := 4 * (f.tag % 64) + 0x100 * f.typ;
    var wide := f.sizeOffset % 256 + 0x100 * (f.tag / 64);
    match w
    case W1 => [low + 0x1_0000 * (f.dataOffset % 256) + 0x100_0000 * (f.sizeOffset % 16)
                + 0x1000_0000 * (f.dataSize % 16)]
    case W2 => [1 + low + 0x1_0000 * (f.arraySize % 4096) + 0x1000_0000 * (f.sizeOffset % 16),
                f.dataOffset % U16 + 0x1_0000 * (f.dataSize % 4096) + 0x1000_0000 * (f.tag / 64 % 16)]
    case W4 => [2 + low + 0x1_0000 * (f.arraySize % U16), wide, f.dataOffset, f.dataSize]
    case W8 => [3 + low, wide, f.dataOffset, f.dataSize, f.arraySize, 0, 0, 0]
  }

  /** Bits of a word: shifted right by division, masked by remainder. */
  function Bits(word: nat, shift: nat, size: nat): nat
    requires shift > 0 && size > 0
  {
    word / shift % size
  }

  function Format(word0: nat): nat { word0 % 4 }

  /** The word count a first word announces. */
  function LenOf(word0: nat): nat {
    var n := Format(word0);
    if n == 0 then 1 else if n == 1 then 2 else if n == 2 then 4 else 8
  }

  function TagLow(word0: nat): nat { Bits(word0, 4, 64) }

  function TypeOf(word0: nat): nat { Bits(word0, 0x100, 256) }

  function TagHigh(low: nat, word1: nat): nat { (low + 64 * (word1 / 0x100)) % U16 }

  /** The cast to int_least8_t. */
  function Int8(b: nat): int { if b < 128 then b else b - 256 }

  /** load_descriptor_values: the fields of the descriptor at index at. */
  function Unpack(ws: seq<nat>, at: nat): FieldInfo
    requires at < |ws| && at + LenOf(ws[at]) <= |ws|
  {
    var word0 := ws[at];
    var typ := TypeOf(word0);
    match Format(word0)
    case 0 =>
      FieldInfo(TagLow(word0), typ, Bits(word0, 0x1_0000, 256), Bits(word0, 0x1000_0000, 16),
                Bits(word0, 0x100_0000, 16), 1)
    case 1 =>
      var word1 := ws[at + 1];
      FieldInfo(TagLow(word0) + 64 * Bits(word1, 0x1000_0000, 16), typ, Bits(word1, 1, U16),
                Bits(word1, 0x1_0000, 4096), Bits(word0, 0x1000_0000, 16), Bits(word0, 0x1_0000, 4096))
    case 2 =>
      FieldInfo(TagHigh(TagLow(word0), ws[at + 1]), typ, ws[at + 2], Bits(ws[at + 3], 1, U16),
                Int8(Bits(ws[at + 1], 1, 256)), Bits(word0, 0x1_0000, U16))
    case _ =>
      FieldInfo(TagHigh(TagLow(word0), ws[at + 1]), typ, ws[at + 2], Bits(ws[at + 3], 1, U16),
                Int8(Bits(ws[at + 1], 1, 256)), Bits(ws[at + 4], 1, U16))
  }

  /** What the packed form keeps of a field: one word cannot say array_size 0, and the wide forms keep a byte of the
      size offset. */
  function Kept(f: FieldInfo, w: Width): FieldInfo {
    match w
    case W1 => f.(arraySize := 1)
    case W2 => f
    case _ => f.(sizeOffset := f.sizeOffset % 256)
  }

  /** Whatever passes the assertions is unpacked as far as it is kept, and comes back as it was exactly when its array
      size and its size offset are ones that the format can say. */
  lemma UnpackPack(f: FieldInfo, w: Width, ws: seq<nat>, at: nat)
    requires Fits(f, w) && at + Len(w) <= |ws| && ws[at..at + Len(w)] == Pack(f, w)
    ensures LenOf(ws[at]) == Len(w) && TagLow(ws[at]) == f.tag % 64 && TypeOf(ws[at]) == f.typ
    ensures Unpack(ws, at) == Kept(f, w)
    ensures Unpack(ws, at) == f <==> (w.W1? ==> f.arraySize == 1) && (w.W4? || w.W8? ==> 0 <= f.sizeOffset < 128)
  {
    hide Pack, TagLow, TypeOf, Bits, Format, TagHigh;
    var p := Pack(f, w);
    assert ws[at] == p[0];
    match w
    case W1 => UnpackOne(f);
    case W2 => UnpackTwo(f); assert ws[at + 1] == p[1];
    case W4 => UnpackFour(f); assert ws[at + 1] == p[1] && ws[at + 2] == p[2] && ws[at + 3] == p[3];
    case W8 =>
      UnpackEight(f);
      assert ws[at + 1] == p[1] && ws[at + 2] == p[2] && ws[at + 3] == p[3] && ws[at + 4] == p[4];
  }

  /** A size offset of 300 passes the assertion of either wide form and comes back as 44. */
  lemma SizeOffsetCut(f: FieldInfo, w: Width, ws: seq<nat>, at: nat)
    requires Fits(f.(sizeOffset := 0), w) && (w.W4? || w.W8?) && f.sizeOffset == 300
    requires at + Len(w) <= |ws| && ws[at..at + Len(w)] == Pack(f, w)
    ensures Fits(f, w) && LenOf(ws[at]) == Len(w) && Unpack(ws, at) == f.(sizeOffset := 44)
  {
    hide Pack, Unpack;
    UnpackPack(f, w, ws, at);
  }

  /** The bit layout that pb.h documents for each width, least significant bits first: length code, low tag bits, type,
      and then what the width has room for. */
  lemma PackedLayout(f: FieldInfo, w: Width)
    requires Fits(f, w)
    ensures var p := Pack(f, w);
            && p[0] % 4 == (match w case W1 => 0 case W2 => 1 case W4 => 2 case W8 => 3)
            && p[0] / 0x4 % 64 == f.tag % 64 && p[0] / 0x100 % 256 == f.typ
    ensures w.W1? ==>
              var p := Pack(f, w);
              && p[0] / 0x1_0000 % 256 == f.dataOffset && p[0] / 0x100_0000 % 16 == f.sizeOffset
              && p[0] / 0x1000_0000 % 16 == f.dataSize
    ensures w.W2? ==>
              var p := Pack(f, w);
              && p[0] / 0x1_0000 % 4096 == f.arraySize && p[0] / 0x1000_0000 % 16 == f.sizeOffset
              && p[1] / 1 % U16 == f.dataOffset && p[1] / 0x1_0000 % 4096 == f.dataSize
              && p[1] / 0x1000_0000 % 16 == f.tag / 64
    ensures w.W4? || w.W8? ==>
              var p := Pack(f, w);
              && p[1] / 1 % 256 == f.sizeOffset % 256 && p[1] / 0x100 == f.tag / 64
              && p[2] == f.dataOffset && p[3] == f.dataSize
    ensures w.W4? ==> Pack(f, w)[0] / 0x1_0000 % U16 == f.arraySize
    ensures w.W8? ==> Pack(f, w)[4..] == [f.arraySize, 0, 0, 0]
  {
    hide Pack;
    match w
    case W1 => UnpackOne(f);
    case W2 => UnpackTwo(f);
    case W4 => UnpackFour(f); WideWords(f, w);
    case W8 => UnpackEight(f); WideWords(f, w);
  }

  lemma WideWords(f: FieldInfo, w: Width)
    requires Fits(f, w) && (w.W4? || w.W8?)
    ensures var p := Pack(f, w); p[1] / 0x100 == f.tag / 64 && p[3] == f.dataSize
    ensures w.W8? ==> Pack(f, w)[4..] == [f.arraySize, 0, 0, 0]
  {
    assert Pack(f, w)[1] == f.sizeOffset % 256 + 0x100 * (f.tag / 64);
  }

  lemma UnpackOne(f: FieldInfo)
    requires Fits(f, W1)
    ensures var word0 := Pack(f, W1)[0];
            && Format(word0) == 0 && TagLow(word0) == f.tag && TypeOf(word0) == f.typ
            && Bits(word0, 0x1_0000, 256) == f.dataOffset && Bits(word0, 0x1000_0000, 16) == f.dataSize
            && Bits(word0, 0x100_0000, 16) == f.sizeOffset
  {
    hide Format, TagLow, TypeOf, Bits;
    ThreeDigits(f.dataOffset, f.sizeOffset, f.dataSize);
    Word(0, f.tag, f.typ, f.dataOffset + 0x100 * f.sizeOffset + 0x1000 * f.dataSize);
    assert f.tag % 64 == f.tag;
    assert Pack(f, W1)[0] == 0 + 4 * (f.tag % 64) + 0x100 * f.typ
      + 0x1_0000 * (f.dataOffset + 0x100 * f.sizeOffset + 0x1000 * f.dataSize);
  }

  lemma ThreeDigits(a: nat, b: nat, c: nat)
    requires a < 256 && b < 16 && c < 16
    ensures var high := a + 0x100 * b + 0x1000 * c;
            high < U16 && high % 256 == a && high / 0x1000 == c && high / 0x100 % 16 == b
  {
    var high := a + 0x100 * (b + 16 * c);
    assert high / 0x100 == b + 16 * c;
  }

  lemma UnpackTwo(f: FieldInfo)
    requires Fits(f, W2)
    ensures var (word0, word1) := (Pack(f, W2)[0], Pack(f, W2)[1]);
            && Format(word0) == 1 && TagLow(word0) == f.tag % 64 && TypeOf(word0) == f.typ
            && Bits(word1, 0x1000_0000, 16) == f.tag / 64
            && Bits(word1, 1, U16) == f.dataOffset && Bits(word1, 0x1_0000, 4096) == f.dataSize
            && Bits(word0, 0x1000_0000, 16) == f.sizeOffset && Bits(word0, 0x1_0000, 4096) == f.arraySize
  {
    hide Format, TagLow, TypeOf, Bits;
    Word(1, f.tag, f.typ, f.arraySize + 0x1000 * f.sizeOffset);
    SecondWord(f.dataOffset, f.dataSize, f.tag / 64);
  }

  lemma UnpackFour(f: FieldInfo)
    requires Fits(f, W4)
    ensures var p := Pack(f, W4);
            && Format(p[0]) == 2 && TagLow(p[0]) == f.tag % 64 && TypeOf(p[0]) == f.typ
            && Bits(p[0], 0x1_0000, U16) == f.arraySize
            && TagHigh(f.tag % 64, p[1]) == f.tag && Bits(p[1], 1, 256) == f.sizeOffset % 256
            && p[2] == f.dataOffset && Bits(p[3], 1, U16) == f.dataSize
  {
    hide Format, TagLow, TypeOf;
    Word(2, f.tag, f.typ, f.arraySize);
    LongTag(f.tag, f.sizeOffset % 256);
  }

  lemma UnpackEight(f: FieldInfo)
    requires Fits(f, W8)
    ensures var p := Pack(f, W8);
            && Format(p[0]) == 3 && TagLow(p[0]) == f.tag % 64 && TypeOf(p[0]) == f.typ
            && TagHigh(f.tag % 64, p[1]) == f.tag && Bits(p[1], 1, 256) == f.sizeOffset % 256
            && p[2] == f.dataOffset && Bits(p[3], 1, U16) == f.dataSize && Bits(p[4], 1, U16) == f.arraySize
  {
    hide Format, TagLow, TypeOf;
    Word(3, f.tag, f.typ, 0);
    LongTag(f.tag, f.sizeOffset % 256);
  }

  lemma LongTag(tag: nat, sizeOffset: nat)
    requires tag < U16 && sizeOffset < 128
    ensures TagHigh(tag % 64, sizeOffset + 0x100 * (tag / 64)) == tag
    ensures Bits(sizeOffset + 0x100 * (tag / 64), 1, 256) == sizeOffset
  {
  }

  lemma SecondWord(dataOffset: nat, dataSize: nat, tagHigh: nat)
    requires dataOffset < U16 && dataSize < 4096 && tagHigh < 16
    ensures var word1 := dataOffset + 0x1_0000 * dataSize + 0x1000_0000 * tagHigh;
            && Bits(word1, 0x1000_0000, 16) == tagHigh && Bits(word1, 1, U16) == dataOffset
            && Bits(word1, 0x1_0000, 4096) == dataSize
  {
    var word1 := dataOffset + 0x1_0000 * (dataSize + 0x1000 * tagHigh);
    assert word1 / 0x1_0000 == dataSize + 0x1000 * tagHigh;
  }

  lemma Word(n: nat, tag: nat, typ: nat, high: nat)
    requires n < 4 && typ < 256 && high < U16
    ensures var word0 := n + 4 * (tag % 64) + 0x100 * typ + 0x1_0000 * high;
            && Format(word0) == n && TagLow(word0) == tag % 64 && TypeOf(word0) == typ
            && Bits(word0, 0x1_0000, 256) == high % 256 && Bits(word0, 0x1_0000, 4096) == high % 4096
            && Bits(word0, 0x1_0000, U16) == high
            && Bits(word0, 0x1000_0000, 16) == high / 0x1000 && Bits(word0, 0x100_0000, 16) == high / 0x100 % 16
  {
    LowHalf(n, tag % 64, typ, high);
    HighHalf(n + 4 * (tag % 64) + 0x100 * typ, high);
  }

  lemma LowHalf(n: nat, t: nat, typ: nat, high: nat)
    requires n < 4 && typ < 256 && t < 64
    ensures var word0 := n + 4 * t + 0x100 * typ + 0x1_0000 * high;
            Format(word0) == n && TagLow(word0) == t && TypeOf(word0) == typ
  {
    var word0 := n + 4 * t + 0x100 * typ + 0x1_0000 * high;
    assert word0 / 4 == t + 64 * (typ + 0x100 * high);
    assert word0 / 0x100 == typ + 0x100 * high;
  }

  lemma HighHalf(low: nat, high: nat)
    requires low < U16 && high < U16
    ensures var word0 := low + 0x1_0000 * high;
            && word0 / 0x1_0000 == high && word0 / 0x1000_0000 == high / 0x1000 && word0 / 0x100_0000 == high / 0x100
  {
  }

  // ---------- a whole descriptor ----------

  /** The field_info array: all fields packed, then a zero word. */
  function PackAll(fs: seq<FieldInfo>, ws: seq<Width>): seq<nat>
    requires |fs| == |ws|
  {
    if fs == [] then [0] else Pack(fs[0], ws[0]) + PackAll(fs[1..], ws[1..])
  }

  /** Where field i starts. */
  function Offset(ws: seq<Width>, i: nat): (n: nat)
    requires i <= |ws|
    ensures i <= n
  {
    if i == 0 then 0 else Offset(ws, i - 1) + Len(ws[i - 1])
  }

  /** How many of the first i fields are required, or submessages. */
  function CountRequired(fs: seq<FieldInfo>, i: nat): (n: nat)
    requires i <= |fs|
    ensures n <= i
  {
    if i == 0 then 0 else CountRequired(fs, i - 1) + if IsRequired(fs[i - 1].typ) then 1 else 0
  }

  function CountSubmsg(fs: seq<FieldInfo>, i: nat): (n: nat)
    requires i <= |fs|
    ensures n <= i
  {
    if i == 0 then 0 else CountSubmsg(fs, i - 1) + if IsSubmsg(fs[i - 1].typ) then 1 else 0
  }

  /** A descriptor as PB_BIND makes it: fields in tag order, each fitting its width, 16-bit indexes sufficient. */
  ghost predicate Bound(fs: seq<FieldInfo>, ws: seq<Width>) {
    && |fs| == |ws| < 0xFFFF && Offset(ws, |ws|) < U16
    && (forall i | 0 <= i < |fs| :: Fits(fs[i], ws[i]) && 0 < fs[i].tag)
    && (forall i, j | 0 <= i < j < |fs| :: fs[i].tag < fs[j].tag)
  }

  lemma {:induction false} PackedAt(fs: seq<FieldInfo>, ws: seq<Width>, i: nat)
    requires |fs| == |ws| && i < |fs|
    ensures Offset(ws, i) + Len(ws[i]) < |PackAll(fs, ws)|
    ensures PackAll(fs, ws)[Offset(ws, i)..Offset(ws, i) + Len(ws[i])] == Pack(fs[i], ws[i])
  {
    hide Pack;
    var tail := PackAll(fs[1..], ws[1..]);
    if i > 0 {
      PackedAt(fs[1..], ws[1..], i - 1);
      OffsetTail(ws, i - 1);
      Within(Pack(fs[0], ws[0]), tail, Offset(ws[1..], i - 1), Len(ws[i]));
    } else {
      PackAllNonempty(fs[1..], ws[1..]);
    }
  }

  lemma Within(a: seq<nat>, b: seq<nat>, at: nat, n: nat)
    requires at + n <= |b|
    ensures (a + b)[|a| + at..|a| + at + n] == b[at..at + n]
  {
  }

  lemma PackAllNonempty(fs: seq<FieldInfo>, ws: seq<Width>)
    requires |fs| == |ws|
    ensures |PackAll(fs, ws)| > 0
  {
  }

  lemma {:induction false} OffsetTail(ws: seq<Width>, i: nat)
    requires i < |ws|
    ensures Offset(ws, i + 1) == Len(ws[0]) + Offset(ws[1..], i)
  {
    if i > 0 { OffsetTail(ws, i - 1); }
  }

  lemma {:induction false} OffsetMono(ws: seq<Width>, i: nat, j: nat)
    requires i <= j <= |ws|
    ensures Offset(ws, i) <= Offset(ws, j)
  {
    if i < j { OffsetMono(ws, i, j - 1); }
  }

  class FieldIter {
    const info: seq<nat>
    const count: nat
    const largestTag: nat
    ghost const fs: seq<FieldInfo>
    ghost const ws: seq<Width>
    var index: nat
    var infoIndex: nat
    var requiredIndex: nat
    var submsgIndex: nat
    var cur: FieldInfo

    /** The descriptor is well made and the indexes are those of field index. */
    ghost predicate Positioned()
      reads this
    {
      && Bound(fs, ws) && info == PackAll(fs, ws) && count == |fs|
      && largestTag == (if fs == [] then 0 else fs[|fs| - 1].tag)
      && (if fs == [] then index == infoIndex == requiredIndex == submsgIndex == 0
          else && index < |fs| && infoIndex == Offset(ws, index)
               && requiredIndex == CountRequired(fs, index) && submsgIndex == CountSubmsg(fs, index))
    }

    ghost predicate Valid()
      reads this
    {
      Positioned() && cur == if fs == [] then FieldInfo(0, 0, 0, 0, 0, 0) else Kept(fs[index], ws[index])
    }

    /** pb_field_iter_begin. */
    constructor Begin(fs: seq<FieldInfo>, ws: seq<Width>)
      requires Bound(fs, ws)
      ensures Valid() && this.fs == fs && this.ws == ws && index == 0
    {
      info, count := PackAll(fs, ws), |fs|;
      largestTag := if fs == [] then 0 else fs[|fs| - 1].tag;
      this.fs, this.ws := fs, ws;
      index, infoIndex, requiredIndex, submsgIndex := 0, 0, 0, 0;
      cur := FieldInfo(0, 0, 0, 0, 0, 0);
      new;
      var loaded := Load();
    }

    /** load_descriptor_values. */
    method Load() returns (ok: bool)
      requires Positioned() && (fs == [] ==> cur == FieldInfo(0, 0, 0, 0, 0, 0))
      modifies `cur
      ensures Valid() && (ok <==> fs != [])
    {
      hide Unpack, PackAll, Bound, LenOf;
      if index >= count { return false; }
      CurrentWord(fs, ws, index);
      cur := Unpack(info, infoIndex);
      ok := true;
    }

    /** advance_iterator; index may be the field count to force a restart. */
    method Advance()
      requires Positioned() || Restarting()
      modifies `index, `infoIndex, `requiredIndex, `submsgIndex
      ensures Positioned()
      ensures index == if old(index) + 1 >= |fs| then 0 else old(index) + 1
    {
      hide LenOf, TypeOf, PackAll, Unpack, Offset, CountRequired, CountSubmsg, TagLow, IsRequired, IsSubmsg, Kept,
           Bound;
      StartPosition(fs, ws);
      index := (index + 1) % U16;
      if index >= count {
        index, infoIndex, submsgIndex, requiredIndex := 0, 0, 0, 0;
      } else {
        CurrentWord(fs, ws, index - 1);
        NextPosition(fs, ws, index - 1);
        var prev := info[infoIndex];
        var typ := TypeOf(prev);
        infoIndex := (infoIndex + LenOf(prev)) % U16;
        requiredIndex := (requiredIndex + if IsRequired(typ) then 1 else 0) % U16;
        submsgIndex := (submsgIndex + if IsSubmsg(typ) then 1 else 0) % U16;
      }
    }

    /** The state pb_field_iter_find sets up to search from the first field. */
    ghost predicate Restarting()
      reads this
    {
      && Bound(fs, ws) && info == PackAll(fs, ws) && count == |fs| == index
      && fs != [] && largestTag == fs[|fs| - 1].tag
    }

    /** pb_field_iter_next: false when the iterator wraps to the first field. */
    method Next() returns (more: bool)
      requires Valid()
      modifies this
      ensures Valid()
      ensures more <==> old(index) + 1 < |fs|
      ensures index == if more then old(index) + 1 else 0
    {
      Advance();
      var loaded := Load();
      more := index != 0;
    }

    /** pb_field_iter_find, from any position. A field of extension type counts only if the iterator stands on it;
        on failure the iterator is back where it was. The search is over after at most field_count advances. In a
        descriptor without fields the iterator stands on tag 0, which is found there. */
    method Find(tag: nat) returns (found: bool, ghost advances: nat)
      requires Valid()
      modifies this
      ensures Valid() && advances <= |fs|
      ensures found <==> old(cur).tag == tag || exists i :: 0 <= i < |fs| && Matches(fs[i], tag)
      ensures found ==> if fs == [] then tag == 0 else index < |fs| && fs[index].tag == tag
      ensures !found ==> index == old(index)
    {
      hide Unpack, PackAll, Offset, CountRequired, CountSubmsg, TagLow, LenOf, Kept, Bound, TypeOf;
      SortedTags(fs, ws);
      KeptTags(fs, ws);
      advances := 0;
      if cur.tag == tag { return true, 0; }
      if tag > largestTag { return false, 0; }
      var start := index;
      ghost var back := tag < cur.tag;
      if tag < cur.tag { index := count; }
      while true
        invariant fs != [] && start < |fs| && (back ==> tag < fs[start].tag)
        invariant advances == 0 ==> index == if back then |fs| else start
        invariant advances == 0 && back ==> Restarting()
        invariant advances > 0 || !back ==> Positioned()
        invariant advances > 0 ==> index != start && advances == Distance(back, start, index, |fs|)
        invariant advances > 0 && back ==> index < start
        invariant forall j | 0 <= j < |fs| && advances > 0 && Seen(back, start, index, j) :: !Matches(fs[j], tag)
        decreases |fs| - advances
      {
        Advance();
        advances := advances + 1;
        assert Seen(back, start, index, index);
        CurrentWord(fs, ws, index);
        if TagLow(info[infoIndex]) == tag % 64 {
          var loaded := Load();
          if cur.tag == tag && !IsExtension(cur.typ) { return true, advances; }
        }
        if index == start { break; }
      }
      assert forall j | 0 <= j < |fs| :: !Matches(fs[j], tag);
      var loaded := Load();
      found := false;
    }
  }

  predicate Matches(f: FieldInfo, tag: nat) {
    f.tag == tag && !IsExtension(f.typ)
  }

  /** Field j was visited on the way to index: from the first field if back, else from the one after start. */
  ghost predicate Seen(back: bool, start: nat, index: nat, j: nat) {
    if back then j <= index else if index > start then start < j <= index else j > start || j <= index
  }

  ghost function Distance(back: bool, start: nat, index: nat, n: nat): int {
    if back then index + 1 else if index > start then index - start else n - start + index
  }

  lemma SortedTags(fs: seq<FieldInfo>, ws: seq<Width>)
    requires Bound(fs, ws)
    ensures |fs| == |ws| < 0xFFFF && (forall i | 0 <= i < |fs| :: 0 < fs[i].tag)
    ensures forall i, j | 0 <= i < j < |fs| :: fs[i].tag < fs[j].tag
  {
  }

  lemma KeptTags(fs: seq<FieldInfo>, ws: seq<Width>)
    requires |fs| == |ws|
    ensures forall i | 0 <= i < |fs| :: Kept(fs[i], ws[i]).tag == fs[i].tag && Kept(fs[i], ws[i]).typ == fs[i].typ
  {
  }

  lemma StartPosition(fs: seq<FieldInfo>, ws: seq<Width>)
    requires Bound(fs, ws)
    ensures Offset(ws, 0) == CountRequired(fs, 0) == CountSubmsg(fs, 0) == 0 && |fs| == |ws| < 0xFFFF
  {
  }

  lemma NextPosition(fs: seq<FieldInfo>, ws: seq<Width>, i: nat)
    requires Bound(fs, ws) && i < |fs|
    ensures Offset(ws, i + 1) == Offset(ws, i) + Len(ws[i]) < U16
    ensures CountRequired(fs, i + 1) == CountRequired(fs, i) + (if IsRequired(fs[i].typ) then 1 else 0) < U16
    ensures CountSubmsg(fs, i + 1) == CountSubmsg(fs, i) + (if IsSubmsg(fs[i].typ) then 1 else 0) < U16
  {
    OffsetMono(ws, i + 1, |ws|);
  }

  lemma CurrentWord(fs: seq<FieldInfo>, ws: seq<Width>, i: nat)
    requires Bound(fs, ws) && i < |fs|
    ensures var (info, at) := (PackAll(fs, ws), Offset(ws, i));
            && at < |info| && LenOf(info[at]) == Len(ws[i]) && at + LenOf(info[at]) < |info|
            && TagLow(info[at]) == fs[i].tag % 64 && TypeOf(info[at]) == fs[i].typ
            && Unpack(info, at) == Kept(fs[i], ws[i])
  {
    hide LenOf, TagLow, TypeOf, Unpack, Pack;
    PackedAt(fs, ws, i);
    UnpackPack(fs[i], ws[i], PackAll(fs, ws), Offset(ws, i));
  }
}
