/** The charging-slot report of tsl_pb.h and its declared maximum size. */
module SlotDetail {
  import opened Varint
  import opened IStreams
  import opened Schema
  import opened Wire

  const U8 := Scalar(LUVarint, 1)
  const ENUM := Scalar(LUVarint, 4)
  const UINT16 := Scalar(LUVarint, 2)
  const UINT32 := Scalar(LUVarint, 4)
  const INT16 := Scalar(LVarint, 2)

  /** slotDetail_FIELDLIST: slot, state, power, voltage, current, leftTime, energy, temperature. */
  function Descriptor(): Desc {
    [Field(1, Singular(U8)), Field(2, Singular(ENUM)), Field(3, Singular(UINT16)), Field(4, Singular(UINT16)),
     Field(5, Singular(UINT16)), Field(6, Singular(UINT32)), Field(7, Singular(UINT16)), Field(8, Singular(INT16))]
  }

  /** What field i may take: a tag byte and the longest varint of its member. The state is an enum of 0 and 1. */
  function MaxField(i: nat): nat {
    if i == 0 then 3 else if i == 1 then 2 else if i == 5 then 6 else if i == 7 then 11 else 4
  }

  function MaxFrom(i: nat): nat
    requires i <= 8
    decreases 8 - i
  {
    if i == 8 then 0 else MaxField(i) + MaxFrom(i + 1)
  }

  const SLOT_DETAIL_SIZE := 38

  lemma TagByte(wt: nat, tag: nat)
    requires wt < 8 && tag < 16
    ensures |EncTag(wt, tag)| == 1
  {
  }

  lemma EnvironmentOk()
    ensures EnvOk([Descriptor()])
  {
    assert DescOk([Descriptor()], 0);
  }

  /** The length of a number grows only at powers of 128. */
  lemma {:induction false} ExactLength(v: nat, n: nat)
    requires n > 0 && v < Pow128(n) && (n > 1 ==> Pow128(n - 1) <= v)
    ensures |Minimal(v)| == n
  {
    if n > 1 {
      PowerStep(v, n);
      ExactLength(v / 128, n - 1);
    } else { assert Pow128(1) == 128; }
  }

  lemma PowerStep(v: nat, n: nat)
    requires n > 1 && Pow128(n - 1) <= v < Pow128(n)
    ensures v >= 128 && v / 128 < Pow128(n - 1) && (n > 2 ==> Pow128(n - 2) <= v / 128)
  {
    assert Pow128(n) == 128 * Pow128(n - 1);
    assert Pow128(n - 1) == 128 * Pow128(n - 2);
  }

  lemma FieldBound(env: Env, i: nat, slot: Slot)
    requires env == [Descriptor()] && EnvOk(env) && i < 8 && SlotOk(env, env[0][i].kind, slot)
    requires i == 1 ==> 0 <= slot.v <= 1
    ensures |EncSlot(env, 0, env[0][i], slot)| <= MaxField(i)
  {
    assert DescOk(env, 0);
    assert Pow128(1) == 128 && Pow128(2) == 0x4000 && Pow128(3) == 0x20_0000 && Pow128(5) == 0x8_0000_0000
      by { Pow128Table(); }
    TagByte(WT_VARINT, i + 1);
    if slot.v == 0 {}
    else if i == 0 { MinimalLength(slot.v, 2); }
    else if i == 1 { MinimalLength(slot.v, 1); }
    else if i == 5 { MinimalLength(slot.v, 5); }
    else if i == 7 { Minimal64(ToU64(slot.v)); }
    else { MinimalLength(slot.v, 3); }
  }

  /** The state is one of the two values the enumeration declares. */
  predicate StateInRange(m: Msg) {
    |m.slots| == 8 && m.slots[1].Num? && 0 <= m.slots[1].v <= 1
  }

  lemma {:induction false} BoundFrom(env: Env, m: Msg, i: nat)
    requires env == [Descriptor()] && EnvOk(env) && MsgOk(env, 0, m) && StateInRange(m) && i <= 8
    ensures |EncFrom(env, 0, m, i)| <= MaxFrom(i)
    decreases 8 - i
  {
    hide EncSlot;
    if i < 8 {
      assert DescOk(env, 0);
      FieldBound(env, i, m.slots[i]);
      BoundFrom(env, m, i + 1);
    }
  }

  lemma Total()
    ensures MaxFrom(0) == SLOT_DETAIL_SIZE
  {
    assert MaxFrom(6) == 15;
    assert MaxFrom(4) == 25;
    assert MaxFrom(2) == 33;
  }

  /** Every report whose state is in range fits SLOT_DETAIL_SIZE bytes. */
  lemma WithinDeclaredSize(m: Msg)
    requires MsgOk([Descriptor()], 0, m) && StateInRange(m)
    ensures EnvOk([Descriptor()]) && |EncMsg([Descriptor()], 0, m)| <= SLOT_DETAIL_SIZE
  {
    EnvironmentOk();
    BoundFrom([Descriptor()], m, 0);
    Total();
  }

  /** The largest report: every number as long as its member allows. */
  function Largest(): Msg {
    Msg([Num(255), Num(1), Num(65535), Num(65535), Num(65535), Num(0xFFFF_FFFF), Num(65535), Num(-1)])
  }

  lemma FieldExact(env: Env, i: nat)
    requires env == [Descriptor()] && EnvOk(env) && i < 8 && SlotOk(env, env[0][i].kind, Largest().slots[i])
    ensures |EncSlot(env, 0, env[0][i], Largest().slots[i])| == MaxField(i)
  {
    assert DescOk(env, 0);
    assert Pow128(1) == 128 && Pow128(2) == 0x4000 && Pow128(3) == 0x20_0000 && Pow128(5) == 0x8_0000_0000
      by { Pow128Table(); }
    assert Pow128(4) == 0x1000_0000 by { Pow128Table(); }
    TagByte(WT_VARINT, i + 1);
    var v := Largest().slots[i].v;
    if i == 0 { ExactLength(v, 2); }
    else if i == 1 { ExactLength(v, 1); }
    else if i == 5 { ExactLength(v, 5); }
    else if i == 7 { NegativeGroups(ToU64(v)); }
    else { ExactLength(v, 3); }
  }

  lemma {:induction false} ExactFrom(env: Env, i: nat)
    requires env == [Descriptor()] && EnvOk(env) && MsgOk(env, 0, Largest()) && i <= 8
    ensures |EncFrom(env, 0, Largest(), i)| == MaxFrom(i)
    decreases 8 - i
  {
    hide EncSlot;
    if i < 8 {
      assert DescOk(env, 0);
      FieldExact(env, i);
      ExactFrom(env, i + 1);
    }
  }

  /** And one report attains it. */
  lemma DeclaredSizeAttained()
    ensures EnvOk([Descriptor()]) && MsgOk([Descriptor()], 0, Largest()) && StateInRange(Largest())
    ensures |EncMsg([Descriptor()], 0, Largest())| == SLOT_DETAIL_SIZE
  {
    EnvironmentOk();
    ExactFrom([Descriptor()], 0);
    Total();
  }
}
