/** Two messages that pb_encode mishandles in a 32-bit address space: many entries of an array share one string, and
    some 320 KiB of memory stand for 2^32 bytes of wire form. */
module Giants {
  import opened Prelude
  import opened Varint
  import opened IStreams
  import opened Pieces
  import opened Schema
  import opened Wire
  import opened Layout

  /** A text, a list of texts, and a text with an embedded list. */
  const GIANT_ENV: Env :=
    [[Field(1, PtrString)], [Field(1, PtrMsgs(0))], [Field(1, PtrString), Field(2, OptMsg(1))]]

  const CHARS := 0x1_0000

  /** All entries have the same string at the same address. */
  function Entry(cs: bytes): Msg { Msg([Str(At(1), cs + [0])]) }

  function Entries(cs: bytes, n: nat): (items: seq<Msg>)
    ensures |items| == n
  {
    seq(n, _ => Entry(cs))
  }

  function List(cs: bytes, n: nat): Msg { Msg([Msgs(At(2), Entries(cs, n))]) }

  function Titled(title: bytes, cs: bytes, n: nat): Msg { Msg([Str(At(3), title + [0]), Sub(true, List(cs, n))]) }

  // ---------- the messages are well formed ----------

  lemma GiantEnvOk()
    ensures EnvOk(GIANT_ENV)
  {
    assert DescOk(GIANT_ENV, 0) && DescOk(GIANT_ENV, 1) && DescOk(GIANT_ENV, 2);
  }

  lemma EntryOk(cs: bytes)
    requires |cs| < U32
    ensures MsgOk(GIANT_ENV, 0, Entry(cs))
  {
    assert (cs + [0])[|cs|] == 0;
  }

  lemma ListOk(cs: bytes, n: nat)
    requires |cs| < U32 && n <= SIZE_MAX
    ensures MsgOk(GIANT_ENV, 1, List(cs, n))
    ensures forall i | 0 <= i < n :: MsgOk(GIANT_ENV, 0, Entries(cs, n)[i])
  {
    EntryOk(cs);
    hide MsgOk;
    forall i | 0 <= i < n ensures MsgOk(GIANT_ENV, 0, Entries(cs, n)[i]) {}
    OneSlotOk(GIANT_ENV, 1, List(cs, n));
  }

  lemma OneSlotOk(env: Env, k: nat, m: Msg)
    requires k < |env| && |m.slots| == |env[k]| == 1 && SlotOk(env, env[k][0].kind, m.slots[0])
    ensures MsgOk(env, k, m)
  {
  }

  lemma TitledOk(title: bytes, cs: bytes, n: nat)
    requires |title| < U32 && |cs| < U32 && n <= SIZE_MAX
    ensures MsgOk(GIANT_ENV, 2, Titled(title, cs, n))
  {
    ListOk(cs, n);
    assert (title + [0])[|title|] == 0;
    hide Entries;
  }

  // ---------- their layout ----------

  lemma {:induction false} FirstNul(cs: bytes)
    requires 0 !in cs
    ensures UpToNul(cs + [0]) == cs
  {
    if cs != [] {
      assert (cs + [0])[1..] == cs[1..] + [0];
      FirstNul(cs[1..]);
    }
  }

  lemma StringSlot(env: Env, k: nat, f: Field, slot: Slot)
    requires EnvOk(env) && KindOk(env, k, f.kind) && SlotOk(env, f.kind, slot) && f.kind.PtrString? && slot.addr.At?
    ensures LaySlot(env, k, f, slot) == [Raw(EncTag(WT_STRING, f.tag))] + LayString(UpToNul(slot.chars))
  {
    hide Minimal, UpToNul, EncTag, EnvOk;
  }

  lemma OneField(env: Env, k: nat, m: Msg)
    requires EnvOk(env) && k < |env| && MsgOk(env, k, m) && |m.slots| == |env[k]| == 1 && KindOk(env, k, env[k][0].kind)
    ensures LayMsg(env, k, m) == LaySlot(env, k, env[k][0], m.slots[0])
  {
    hide LaySlot, SlotOk;
    var ps := LaySlot(env, k, env[k][0], m.slots[0]);
    assert LayFrom(env, k, m, 1) == [];
    assert ps + [] == ps;
  }

  lemma TwoFields(env: Env, k: nat, m: Msg)
    requires EnvOk(env) && k < |env| && MsgOk(env, k, m) && |m.slots| == |env[k]| == 2
    requires KindOk(env, k, env[k][0].kind) && KindOk(env, k, env[k][1].kind)
    ensures LayMsg(env, k, m) == LaySlot(env, k, env[k][0], m.slots[0]) + LaySlot(env, k, env[k][1], m.slots[1])
  {
    hide LaySlot, SlotOk;
    assert LayFrom(env, k, m, 2) == [];
    assert LayFrom(env, k, m, 1) == LaySlot(env, k, env[k][1], m.slots[1]);
  }

  lemma TagBytes()
    ensures EncTag(WT_STRING, 1) == [0x0A] && EncTag(WT_STRING, 2) == [0x12]
  {
  }

  lemma ThreeBytes(v: nat)
    requires CHARS <= v < 2 * CHARS
    ensures |Minimal(v)| == 3
  {
    var a := v / 128;
    assert 4 <= a / 128 < 128;
    assert |Minimal(a)| == 2;
  }

  lemma FiveBytes(v: nat)
    requires U31 <= v < U32
    ensures |Minimal(v)| == 5
  {
    var a := v / 128;
    var b := a / 128;
    var c := b / 128;
    var d := c / 128;
    assert 8 <= d < 16;
    assert |Minimal(c)| == 2;
    assert |Minimal(b)| == 3;
    assert |Minimal(a)| == 4;
  }

  lemma Three(x: bytes, y: bytes, z: bytes)
    ensures Whole([Raw(x), Raw(y), Raw(z)]) && |Flat([Raw(x), Raw(y), Raw(z)])| == |x| + |y| + |z|
  {
    Two(x, y); One(Raw(z)); PieceBytes(Raw(z));
    FlatSum([Raw(x), Raw(y)], [Raw(z)]);
    assert [Raw(x), Raw(y)] + [Raw(z)] == [Raw(x), Raw(y), Raw(z)];
  }

  lemma EntryLay(cs: bytes)
    requires 0 !in cs && |cs| == CHARS
    ensures EnvOk(GIANT_ENV) && MsgOk(GIANT_ENV, 0, Entry(cs))
    ensures var ps := LayMsg(GIANT_ENV, 0, Entry(cs)); Whole(ps) && |Flat(ps)| == CHARS + 4
  {
    hide Minimal, UpToNul, MsgOk, EncTag, EnvOk, DescOk, LayMsg, LayFrom, LaySlot, SlotOk, Whole, Flat;
    GiantEnvOk();
    EntryOk(cs);
    TagBytes();
    FirstNul(cs);
    var m := Entry(cs);
    EntrySlotOk(cs);
    OneField(GIANT_ENV, 0, m);
    StringSlot(GIANT_ENV, 0, GIANT_ENV[0][0], m.slots[0]);
    assert [Raw([0x0A])] + LayString(cs) == [Raw([0x0A]), Raw(Minimal(|cs|)), Raw(cs)];
    ThreeBytes(|cs|);
    Three([0x0A], Minimal(|cs|), cs);
  }

  lemma EntrySlotOk(cs: bytes)
    requires |cs| < U32
    ensures SlotOk(GIANT_ENV, PtrString, Str(At(1), cs + [0]))
  {
    assert (cs + [0])[|cs|] == 0;
  }

  /** Tag, length and payload of one entry. */
  ghost function Record(cs: bytes): seq<Piece>
    requires EnvOk(GIANT_ENV) && MsgOk(GIANT_ENV, 0, Entry(cs))
  {
    [Raw([0x0A]), Raw(Minimal(CHARS + 4)), Nested(LayMsg(GIANT_ENV, 0, Entry(cs)))]
  }

  lemma RecordSize(cs: bytes)
    requires 0 !in cs && |cs| == CHARS
    ensures EnvOk(GIANT_ENV) && MsgOk(GIANT_ENV, 0, Entry(cs))
    ensures Whole(Record(cs)) && |Flat(Record(cs))| == CHARS + 8
  {
    hide Minimal, MsgOk, EnvOk, LayMsg, Whole, Flat, FlatPiece;
    EntryLay(cs);
    ThreeBytes(CHARS + 4);
    var p := Nested(LayMsg(GIANT_ENV, 0, Entry(cs)));
    Two([0x0A], Minimal(CHARS + 4));
    One(p); PieceBytes(p);
    FlatSum([Raw([0x0A]), Raw(Minimal(CHARS + 4))], [p]);
    assert [Raw([0x0A]), Raw(Minimal(CHARS + 4))] + [p] == Record(cs);
  }

  /** Each entry adds 65544 bytes. */
  lemma {:induction false} EntriesLay(cs: bytes, n: nat)
    requires 0 !in cs && |cs| == CHARS
    ensures EnvOk(GIANT_ENV) && MsgOk(GIANT_ENV, 0, Entry(cs))
    ensures forall i | 0 <= i < n :: MsgOk(GIANT_ENV, 0, Entries(cs, n)[i])
    ensures var ps := LayItems(GIANT_ENV, 1, 0, Entries(cs, n));
            && Whole(ps) && |Flat(ps)| == n * (CHARS + 8)
            && (n > 0 ==> ps == Record(cs) + LayItems(GIANT_ENV, 1, 0, Entries(cs, n)[1..]))
  {
    hide Minimal, MsgOk, EnvOk, LayMsg, Whole, Flat, EncTag;
    EntryLay(cs);
    if n == 0 {
      Empty();
    } else {
      EntriesLay(cs, n - 1);
      assert Entries(cs, n)[1..] == Entries(cs, n - 1);
      TagBytes();
      RecordSize(cs);
      var rest := LayItems(GIANT_ENV, 1, 0, Entries(cs, n - 1));
      assert LaySub(GIANT_ENV, 0, Entry(cs))
          == [Raw(Minimal(CHARS + 4)), Nested(LayMsg(GIANT_ENV, 0, Entry(cs)))];
      assert [Raw([0x0A])] + LaySub(GIANT_ENV, 0, Entry(cs)) == Record(cs);
      FlatSum(Record(cs), rest);
    }
  }

  lemma ListLay(cs: bytes, n: nat)
    requires 0 !in cs && |cs| == CHARS && n <= SIZE_MAX
    ensures EnvOk(GIANT_ENV) && MsgOk(GIANT_ENV, 0, Entry(cs)) && MsgOk(GIANT_ENV, 1, List(cs, n))
    ensures var ps := LayMsg(GIANT_ENV, 1, List(cs, n));
            Whole(ps) && |Flat(ps)| == n * (CHARS + 8) && (n > 0 ==> Record(cs) <= ps)
  {
    hide Minimal, MsgOk, EnvOk, LayMsg, LaySlot, LayItems, Whole, Flat;
    ListOk(cs, n);
    EntriesLay(cs, n);
    ListSlotOk(cs, n);
    OneField(GIANT_ENV, 1, List(cs, n));
    ItemsSlot(cs, n);
  }

  lemma ListSlotOk(cs: bytes, n: nat)
    requires EnvOk(GIANT_ENV) && MsgOk(GIANT_ENV, 1, List(cs, n))
    ensures SlotOk(GIANT_ENV, PtrMsgs(0), Msgs(At(2), Entries(cs, n)))
  {
    hide Entries;
    assert SlotOk(GIANT_ENV, GIANT_ENV[1][0].kind, List(cs, n).slots[0]);
  }

  lemma ItemsSlot(cs: bytes, n: nat)
    requires EnvOk(GIANT_ENV) && SlotOk(GIANT_ENV, PtrMsgs(0), Msgs(At(2), Entries(cs, n)))
    ensures LaySlot(GIANT_ENV, 1, Field(1, PtrMsgs(0)), Msgs(At(2), Entries(cs, n)))
            == LayItems(GIANT_ENV, 1, 0, Entries(cs, n))
  {
    hide Entries, LayItems;
  }

  // ---------- the size changes ----------

  /** 65529 entries make 2^32 + 65480 bytes. The announced size is 65480; the substream takes tag and length of the
      first entry, four bytes, and has no room for the entry itself. So in any stream with 65480 bytes left
      pb_encode_submessage ends with "submsg size changed". */
  lemma ChangeMessage(cs: bytes, w: nat, room: nat, max: nat)
    requires 0 !in cs && |cs| == CHARS && Roomy(w, room, max) && w + 65480 <= max
    ensures EnvOk(GIANT_ENV) && MsgOk(GIANT_ENV, 1, List(cs, 65529))
    ensures var ps := LayMsg(GIANT_ENV, 1, List(cs, 65529));
            |Flat(ps)| == U32 + 65480 && Reached(ps, 0, room, 65480) == 4 && SizeChanges(ps, w, room, max)
  {
    hide Minimal, MsgOk, EnvOk, LayMsg, Whole, Flat, Fates, Reached;
    ListLay(cs, 65529);
    var ps := LayMsg(GIANT_ENV, 1, List(cs, 65529));
    assert ps == Record(cs) + ps[3..];
    FatesSum(Record(cs), ps[3..], 0, room, 65480);
    ReachedSum(Record(cs), ps[3..], 0, room, 65480);
    FirstEntryRefused(cs, room);
  }

  lemma FirstEntryRefused(cs: bytes, room: nat)
    requires 0 !in cs && |cs| == CHARS && 65480 <= room < U32
    requires EnvOk(GIANT_ENV) && MsgOk(GIANT_ENV, 0, Entry(cs))
    ensures Fates(Record(cs), 0, room, 65480).Full? && Reached(Record(cs), 0, room, 65480) == 4
  {
    hide Minimal, MsgOk, EnvOk, LayMsg, Whole;
    EntryLay(cs);
    ThreeBytes(CHARS + 4);
    var (front, p) := ([Raw([0x0A]), Raw(Minimal(CHARS + 4))], Nested(LayMsg(GIANT_ENV, 0, Entry(cs))));
    assert Record(cs) == front + [p];
    HeaderFits([0x0A], Minimal(CHARS + 4), room, 65480);
    hide Flat, Fates, Reached;
    FatesSum(front, [p], 0, room, 65480);
    ReachedSum(front, [p], 0, room, 65480);
    One(p);
  }

  lemma HeaderFits(x: bytes, y: bytes, room: nat, max: nat)
    requires |x| + |y| <= room && |x| + |y| <= max && room < U32 && max < U32
    ensures var ps := [Raw(x), Raw(y)]; Fates(ps, 0, room, max).Fits? && |Flat(ps)| == |x| + |y|
  {
    hide Fates;
    Two(x, y);
    FitsExactly([Raw(x), Raw(y)], 0, room, max);
  }

  /** There is such a string. */
  lemma ChangeHappens(w: nat, room: nat, max: nat)
    requires Roomy(w, room, max) && w + 65480 <= max
    ensures EnvOk(GIANT_ENV)
    ensures exists m: Msg :: MsgOk(GIANT_ENV, 1, m) && SizeChanges(LayMsg(GIANT_ENV, 1, m), w, room, max)
  {
    hide SizeChanges, LayMsg, MsgOk, Reached;
    var cs := seq(CHARS, _ => 0x61);
    ChangeMessage(cs, w, room, max);
    assert MsgOk(GIANT_ENV, 1, List(cs, 65529));
  }

  // ---------- memory is overrun ----------

  /** 65528 entries make 2^32 - 64 bytes. Behind a title of 56 characters and the list's own header 64 bytes are
      written, the sum in the guard wraps to 0, and pb_encode writes past the end of every buffer that takes those 64
      bytes. */
  lemma OverrunMessage(title: bytes, cs: bytes, size: nat)
    requires 0 !in title && |title| == 56 && 0 !in cs && |cs| == CHARS && 64 <= size < U32
    ensures EnvOk(GIANT_ENV) && MsgOk(GIANT_ENV, 2, Titled(title, cs, 65528))
    ensures var ps := LayMsg(GIANT_ENV, 2, Titled(title, cs, 65528)); Small(ps) && Fates(ps, 0, size, size).Over?
  {
    hide Minimal, MsgOk, EnvOk, LayMsg, Whole, Flat, Fates, FateOf;
    TitledLay(title, cs, 65528);
    var list := LayMsg(GIANT_ENV, 1, List(cs, 65528));
    ListLay(cs, 65528);
    FiveBytes(U32 - 64);
    OneByte(56);
    var front := [Raw([0x0A]), Raw(Minimal(56)), Raw(title)] + [Raw([0x12]), Raw(Minimal(U32 - 64))];
    var ps := front + [Nested(list)];
    Three([0x0A], Minimal(56), title);
    Two([0x12], Minimal(U32 - 64));
    FlatSum([Raw([0x0A]), Raw(Minimal(56)), Raw(title)], [Raw([0x12]), Raw(Minimal(U32 - 64))]);
    assert ps[..5] == front;
    assert WrapsAt(ps, 0, size, 5);
    OverrunExactly(ps, 0, size, size);
  }

  lemma OneByte(v: nat)
    requires v < 128
    ensures |Minimal(v)| == 1
  {
  }

  lemma TitledLay(title: bytes, cs: bytes, n: nat)
    requires 0 !in title && |title| < U32 && 0 !in cs && |cs| == CHARS && n <= SIZE_MAX && n * (CHARS + 8) < U32
    ensures EnvOk(GIANT_ENV) && MsgOk(GIANT_ENV, 1, List(cs, n)) && MsgOk(GIANT_ENV, 2, Titled(title, cs, n))
    ensures LayMsg(GIANT_ENV, 2, Titled(title, cs, n))
            == [Raw([0x0A]), Raw(Minimal(|title|)), Raw(title)] + [Raw([0x12]), Raw(Minimal(n * (CHARS + 8)))]
               + [Nested(LayMsg(GIANT_ENV, 1, List(cs, n)))]
  {
    hide Minimal, UpToNul, MsgOk, EncTag, EnvOk, LayMsg, LaySlot, SlotOk, Whole, Flat, List;
    GiantEnvOk();
    ListLay(cs, n);
    TitledOk(title, cs, n);
    TagBytes();
    FirstNul(title);
    var m := Titled(title, cs, n);
    TitledSlotsOk(title, cs, n);
    TwoFields(GIANT_ENV, 2, m);
    StringSlot(GIANT_ENV, 2, Field(1, PtrString), m.slots[0]);
    SubSlot(m.slots[1]);
  }

  lemma TitledSlotsOk(title: bytes, cs: bytes, n: nat)
    requires EnvOk(GIANT_ENV) && MsgOk(GIANT_ENV, 2, Titled(title, cs, n))
    ensures SlotOk(GIANT_ENV, PtrString, Str(At(3), title + [0]))
            && SlotOk(GIANT_ENV, OptMsg(1), Sub(true, List(cs, n)))
  {
    hide List;
    var m := Titled(title, cs, n);
    assert SlotOk(GIANT_ENV, GIANT_ENV[2][0].kind, m.slots[0]) && SlotOk(GIANT_ENV, GIANT_ENV[2][1].kind, m.slots[1]);
  }

  lemma SubSlot(slot: Slot)
    requires EnvOk(GIANT_ENV) && SlotOk(GIANT_ENV, OptMsg(1), slot) && slot.has && Whole(LayMsg(GIANT_ENV, 1, slot.msg))
    ensures LaySlot(GIANT_ENV, 2, Field(2, OptMsg(1)), slot)
            == [Raw(EncTag(WT_STRING, 2)), Raw(Minimal(|Flat(LayMsg(GIANT_ENV, 1, slot.msg))| % U32)),
                Nested(LayMsg(GIANT_ENV, 1, slot.msg))]
  {
    hide Minimal, EncTag, EnvOk, LayMsg, Whole, Flat, MsgOk;
  }

  /** There are such strings. */
  lemma OverrunHappens(size: nat)
    requires 64 <= size < U32
    ensures EnvOk(GIANT_ENV)
    ensures exists m: Msg :: MsgOk(GIANT_ENV, 2, m) && Fates(LayMsg(GIANT_ENV, 2, m), 0, size, size).Over?
  {
    hide Fates, LayMsg, MsgOk;
    var (title, cs) := (seq(56, _ => 0x61), seq(CHARS, _ => 0x61));
    OverrunMessage(title, cs, size);
    assert MsgOk(GIANT_ENV, 2, Titled(title, cs, 65528));
  }
}
