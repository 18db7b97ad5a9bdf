/** The wire form of one message with a field of each kind, byte by byte as the Protocol Buffers encoding defines it,
    and when a message comes back from its wire form unchanged. */
module KnownMessages {
  import opened Prelude
  import opened Varint
  import opened IStreams
  import opened Schema
  import opened Wire
  import opened RoundTrip
  import Ledger

  // ---------- messages that come back unchanged ----------

  predicate PlainNumber(s: Scalar, v: int) { s.lt.LBool? ==> v == 0 || v == 1 }

  /** Bools are 0 or 1, strings end at their first NUL, absent submessages are at their defaults, and an array pointer
      is NULL exactly if there is no entry. */
  ghost predicate Plain(env: Env, k: nat, m: Msg)
    requires EnvOk(env) && k < |env| && MsgOk(env, k, m)
    decreases m
  {
    forall i | 0 <= i < |m.slots| :: DescOk(env, k) && PlainSlot(env, k, env[k][i].kind, m.slots[i])
  }

  ghost predicate PlainSlot(env: Env, k: nat, kind: Kind, slot: Slot)
    requires EnvOk(env) && KindOk(env, k, kind) && SlotOk(env, kind, slot)
    decreases slot
  {
    match kind
    case Singular(s) => PlainNumber(s, slot.v)
    case PtrString => slot.addr.At? ==> 0 !in slot.chars[..|slot.chars| - 1]
    case OptMsg(sub) => if slot.has then Plain(env, sub, slot.msg) else slot.msg == Default(env, sub)
    case PtrMsgs(sub) =>
      && (slot.addr.Null? <==> slot.items == [])
      && forall i | 0 <= i < |slot.items| :: Plain(env, sub, slot.items[i])
    case PtrScalars(s) =>
      (slot.addr.Null? <==> slot.vals == []) && forall i | 0 <= i < |slot.vals| :: PlainNumber(s, slot.vals[i])
    case ArrScalars(s, _) => forall i | 0 <= i < |slot.vals| :: PlainNumber(s, slot.vals[i])
  }

  lemma {:induction false} NormIsErase(env: Env, k: nat, m: Msg)
    requires EnvOk(env) && k < |env| && MsgOk(env, k, m) && Plain(env, k, m)
    ensures Norm(env, k, m) == Erase(m)
    decreases m
  {
    hide PlainSlot, SlotOk;
    var (n, e) := (Norm(env, k, m), Erase(m));
    forall i | 0 <= i < |m.slots| ensures n.slots[i] == e.slots[i] {
      assert DescOk(env, k);
      SlotIsErase(env, k, env[k][i].kind, m.slots[i]);
    }
    assert n.slots == e.slots;
  }

  lemma {:induction false} SlotIsErase(env: Env, k: nat, kind: Kind, slot: Slot)
    requires EnvOk(env) && KindOk(env, k, kind) && SlotOk(env, kind, slot) && PlainSlot(env, k, kind, slot)
    ensures NormSlot(env, k, kind, slot) == EraseSlot(slot)
    decreases slot
  {
    hide Plain, Default, Norm, Erase, MsgOk;
    match kind
    case Singular(s) =>
    case PtrString => if slot.addr.At? { EndsAtNul(slot.chars); }
    case OptMsg(sub) => if slot.has { NormIsErase(env, sub, slot.msg); } else { Ledger.EraseDefault(env, sub); }
    case PtrMsgs(sub) => ItemsAreErased(env, sub, slot.items);
    case PtrScalars(s) => assert NormVals(s, slot.vals) == slot.vals;
    case ArrScalars(s, _) => assert NormVals(s, slot.vals) == slot.vals;
  }

  lemma {:induction false} EndsAtNul(cs: bytes)
    requires 0 in cs && 0 !in cs[..|cs| - 1]
    ensures UpToNul(cs) + [0] == cs
  {
    if |cs| > 1 {
      assert cs[0] in cs[..|cs| - 1] && cs[1..][..|cs| - 2] == cs[..|cs| - 1][1..];
      EndsAtNul(cs[1..]);
    }
  }

  lemma {:induction false} ItemsAreErased(env: Env, sub: nat, items: seq<Msg>)
    requires EnvOk(env) && sub < |env| && forall i | 0 <= i < |items| :: MsgOk(env, sub, items[i])
    requires forall i | 0 <= i < |items| :: Plain(env, sub, items[i])
    ensures NormItems(env, sub, items) == seq(|items|, i requires 0 <= i < |items| => Erase(items[i]))
    decreases items
  {
    hide Plain, Norm, Erase, MsgOk;
    if items != [] {
      NormIsErase(env, sub, items[0]);
      ItemsAreErased(env, sub, items[1..]);
    }
  }

  /** Such a message comes back as it was, only at other addresses. */
  lemma ComesBack(env: Env, k: nat, m: Msg)
    requires EnvOk(env) && k < |env| && MsgOk(env, k, m) && Encodable(env, k, m) && |EncMsg(env, k, m)| < U32
    requires Plain(env, k, m)
    ensures DecMsg(env, k, EncMsg(env, k, m), Default(env, k)) == Some(Erase(m))
  {
    DecodeEncode(env, k, m);
    NormIsErase(env, k, m);
  }

  // ---------- what is not sent ----------

  /** A structure at its defaults is sent as no bytes at all. */
  lemma {:induction false} DefaultIsSilent(env: Env, k: nat)
    requires EnvOk(env) && k < |env|
    ensures EncMsg(env, k, Default(env, k)) == []
  {
    SilentFrom(env, k, 0);
  }

  lemma {:induction false} SilentFrom(env: Env, k: nat, i: nat)
    requires EnvOk(env) && k < |env| && i <= |env[k]|
    ensures EncFrom(env, k, Default(env, k), i) == []
    decreases |env[k]| - i
  {
    if i < |env[k]| {
      assert DescOk(env, k);
      SilentFrom(env, k, i + 1);
    }
  }

  /** A static array can be sent exactly if its count does not exceed its size; nothing else in a message of numbers,
      strings and arrays can keep it from being sent. */
  lemma ArraysDecide(env: Env, k: nat, m: Msg)
    requires EnvOk(env) && k < |env| && MsgOk(env, k, m)
    requires forall i | 0 <= i < |env[k]| :: !env[k][i].kind.OptMsg? && !env[k][i].kind.PtrMsgs?
    ensures Encodable(env, k, m) <==>
              forall i | 0 <= i < |env[k]| && env[k][i].kind.ArrScalars? ::
                m.slots[i].Arr? && |m.slots[i].vals| <= env[k][i].kind.cap
  {
    forall i | 0 <= i < |env[k]| ensures SlotOk(env, env[k][i].kind, m.slots[i]) {}
    if Encodable(env, k, m) {
      forall i | 0 <= i < |env[k]| && env[k][i].kind.ArrScalars?
        ensures m.slots[i].Arr? && |m.slots[i].vals| <= env[k][i].kind.cap
      {
        assert SlotEncodable(env, env[k][i].kind, m.slots[i]);
      }
    }
  }

  // ---------- one message, byte by byte ----------

  const INT32 := Scalar(LVarint, 4)

  /** A message with one int32, and a message with a field of every kind. */
  const SAMPLE_ENV: Env := [
    [Field(1, Singular(INT32))],
    [Field(1, Singular(Scalar(LBool, 1))), Field(2, PtrString), Field(3, OptMsg(0)), Field(4, PtrScalars(INT32)),
     Field(5, Singular(Scalar(LSVarint, 4))), Field(6, Singular(Scalar(LFixed32, 4))),
     Field(7, Singular(Scalar(LFixed64, 8))), Field(8, PtrMsgs(0)), Field(9, Singular(INT32)),
     Field(10, ArrScalars(Scalar(LUVarint, 2), 4))]]

  /** The characters of "testing" and the terminator. */
  const TESTING: bytes := [0x74, 0x65, 0x73, 0x74, 0x69, 0x6E, 0x67, 0]

  function One(v: int): Msg { Msg([Num(v)]) }

  function Sample(): Msg {
    Msg([Num(1), Str(At(0), TESTING), Sub(true, One(150)), Nums(At(0), [3, 270, 86942]), Num(-2), Num(0x12345678),
         Num(0x0102030405060708), Msgs(At(0), [One(1), One(2)]), Num(-1), Arr([1, 300])])
  }

  /** What the standard writes for each field. */
  function SampleField(i: nat): bytes
    requires i < 10
  {
    match i
    case 0 => [0x08, 0x01]
    case 1 => [0x12, 0x07, 0x74, 0x65, 0x73, 0x74, 0x69, 0x6E, 0x67]
    case 2 => [0x1A, 0x03, 0x08, 0x96, 0x01]
    case 3 => [0x22, 0x06, 0x03, 0x8E, 0x02, 0x9E, 0xA7, 0x05]
    case 4 => [0x28, 0x03]
    case 5 => [0x35, 0x78, 0x56, 0x34, 0x12]
    case 6 => [0x39, 0x08, 0x07, 0x06, 0x05, 0x04, 0x03, 0x02, 0x01]
    case 7 => [0x42, 0x02, 0x08, 0x01, 0x42, 0x02, 0x08, 0x02]
    case 8 => [0x48, 0xFF, 0xFF, 0xFF, 0xFF, 0xFF, 0xFF, 0xFF, 0xFF, 0xFF, 0x01]
    case _ => [0x52, 0x03, 0x01, 0xAC, 0x02]
  }

  function SampleFrom(i: nat): bytes
    requires i <= 10
    decreases 10 - i
  {
    if i == 10 then [] else SampleField(i) + SampleFrom(i + 1)
  }

  lemma SampleOk()
    ensures EnvOk(SAMPLE_ENV) && forall v | -U31 <= v < U31 :: MsgOk(SAMPLE_ENV, 0, One(v))
    ensures MsgOk(SAMPLE_ENV, 1, Sample())
  {
    assert DescOk(SAMPLE_ENV, 0) && DescOk(SAMPLE_ENV, 1);
    assert TESTING[7] == 0;
    forall v | -U31 <= v < U31 ensures MsgOk(SAMPLE_ENV, 0, One(v)) {}
    assert MsgOk(SAMPLE_ENV, 0, One(150)) && MsgOk(SAMPLE_ENV, 0, One(1)) && MsgOk(SAMPLE_ENV, 0, One(2));
    var m := Sample();
    forall i | 0 <= i < 10 ensures SlotOk(SAMPLE_ENV, SAMPLE_ENV[1][i].kind, m.slots[i]) { SampleSlotOk(i); }
  }

  lemma SampleSlotOk(i: nat)
    requires i < 10 && MsgOk(SAMPLE_ENV, 0, One(150)) && MsgOk(SAMPLE_ENV, 0, One(1)) && MsgOk(SAMPLE_ENV, 0, One(2))
    ensures SlotOk(SAMPLE_ENV, SAMPLE_ENV[1][i].kind, Sample().slots[i])
  {
    hide MsgOk;
    assert TESTING[7] == 0;
  }

  lemma Tags()
    ensures EncTag(0, 1) == [0x08] && EncTag(2, 2) == [0x12] && EncTag(2, 3) == [0x1A] && EncTag(2, 4) == [0x22]
    ensures EncTag(0, 5) == [0x28] && EncTag(5, 6) == [0x35] && EncTag(1, 7) == [0x39] && EncTag(2, 8) == [0x42]
    ensures EncTag(0, 9) == [0x48] && EncTag(2, 10) == [0x52]
  {
  }

  lemma TwoBytes(v: nat)
    requires 128 <= v < 0x4000
    ensures Minimal(v) == [128 + v % 128, v / 128]
  {
  }

  lemma MinusOne()
    ensures Minimal(U64 - 1) == [0xFF, 0xFF, 0xFF, 0xFF, 0xFF, 0xFF, 0xFF, 0xFF, 0xFF, 0x01]
  {
    TwoBytes(0xFF);
    hide Minimal;
    MoreOnes(0x7FFF, 0xFF); MoreOnes(0x3F_FFFF, 0x7FFF); MoreOnes(0x1FFF_FFFF, 0x3F_FFFF);
    MoreOnes(0xF_FFFF_FFFF, 0x1FFF_FFFF); MoreOnes(0x7FF_FFFF_FFFF, 0xF_FFFF_FFFF);
    MoreOnes(0x3_FFFF_FFFF_FFFF, 0x7FF_FFFF_FFFF); MoreOnes(0x1FF_FFFF_FFFF_FFFF, 0x3_FFFF_FFFF_FFFF);
    MoreOnes(U64 - 1, 0x1FF_FFFF_FFFF_FFFF);
  }

  lemma MoreOnes(v: nat, w: nat)
    requires v == 128 * w + 127 && w > 0
    ensures Minimal(v) == [0xFF] + Minimal(w)
  {
  }

  lemma LowByte(n: nat, b: byte, v: nat)
    ensures Le(n + 1, b + 256 * v) == [b] + Le(n, v)
  {
  }

  lemma FourBytes(a: byte, b: byte, c: byte, d: byte, n: nat, v: nat)
    ensures Le(n + 4, a + 256 * (b + 256 * (c + 256 * (d + 256 * v)))) == [a, b, c, d] + Le(n, v)
  {
    hide Le;
    LowByte(n, d, v);
    LowByte(n + 1, c, d + 256 * v);
    LowByte(n + 2, b, c + 256 * (d + 256 * v));
    LowByte(n + 3, a, b + 256 * (c + 256 * (d + 256 * v)));
  }

  lemma WordForms()
    ensures Le(4, 0x12345678) == [0x78, 0x56, 0x34, 0x12]
    ensures Le(8, 0x0102030405060708) == [0x08, 0x07, 0x06, 0x05, 0x04, 0x03, 0x02, 0x01]
  {
    assert Le(0, 0) == [];
    hide Le;
    FourBytes(0x78, 0x56, 0x34, 0x12, 0, 0);
    FourBytes(0x04, 0x03, 0x02, 0x01, 0, 0);
    FourBytes(0x08, 0x07, 0x06, 0x05, 4, 0x01020304);
  }

  lemma OneForm(v: nat)
    requires EnvOk(SAMPLE_ENV) && 0 < v < U31 && MsgOk(SAMPLE_ENV, 0, One(v))
    ensures EncMsg(SAMPLE_ENV, 0, One(v)) == [0x08] + Minimal(v)
  {
    hide Minimal, EncTag, EnvOk;
    Tags();
    assert EncFrom(SAMPLE_ENV, 0, One(v), 1) == [];
    assert EncSlot(SAMPLE_ENV, 0, SAMPLE_ENV[0][0], One(v).slots[0]) == [0x08] + Minimal(v);
  }

  lemma NumbersForm()
    ensures EncNums(INT32, [3, 270, 86942]) == [0x03, 0x8E, 0x02, 0x9E, 0xA7, 0x05]
    ensures EncNums(Scalar(LUVarint, 2), [1, 300]) == [0x01, 0xAC, 0x02]
  {
    TwoBytes(270); TwoBytes(300); TwoBytes(679);
    assert Minimal(86942) == [0x9E] + Minimal(679);
    assert [3, 270, 86942][1..] == [270, 86942] && [270, 86942][1..] == [86942] && [86942][1..] == [];
    assert [1, 300][1..] == [300] && [300][1..] == [];
    assert EncNums(INT32, [86942]) == Minimal(86942);
    assert EncNums(INT32, [270, 86942]) == Minimal(270) + Minimal(86942);
    assert EncNums(Scalar(LUVarint, 2), [300]) == Minimal(300);
  }

  lemma TextForm()
    ensures UpToNul(TESTING) == [0x74, 0x65, 0x73, 0x74, 0x69, 0x6E, 0x67]
  {
    assert TESTING[5..] == [0x6E, 0x67, 0] && [0x6E, 0x67, 0][1..] == [0x67, 0] && [0x67, 0][1..] == [0];
    assert UpToNul([0x67, 0]) == [0x67];
    assert UpToNul([0x6E, 0x67, 0]) == [0x6E, 0x67];
    assert TESTING[4..][1..] == TESTING[5..] && TESTING[3..][1..] == TESTING[4..];
    assert TESTING[2..][1..] == TESTING[3..] && TESTING[1..][1..] == TESTING[2..];
    assert UpToNul(TESTING[4..]) == [0x69, 0x6E, 0x67];
    assert UpToNul(TESTING[3..]) == [0x74] + UpToNul(TESTING[4..]);
    assert UpToNul(TESTING[2..]) == [0x73] + UpToNul(TESTING[3..]);
    assert UpToNul(TESTING[1..]) == [0x65] + UpToNul(TESTING[2..]);
  }

  lemma ShortForm(bs: bytes)
    requires |bs| < 128
    ensures Counted(bs) == [|bs|] + bs
  {
  }

  lemma ItemsForm()
    requires EnvOk(SAMPLE_ENV) && MsgOk(SAMPLE_ENV, 0, One(1)) && MsgOk(SAMPLE_ENV, 0, One(2))
    ensures EncItems(SAMPLE_ENV, 8, 0, [One(1), One(2)]) == [0x42, 0x02, 0x08, 0x01, 0x42, 0x02, 0x08, 0x02]
  {
    hide EncMsg, EncTag, EnvOk, MsgOk, Counted;
    Tags();
    OneForm(1); OneForm(2);
    assert EncMsg(SAMPLE_ENV, 0, One(1)) == [0x08, 0x01] && EncMsg(SAMPLE_ENV, 0, One(2)) == [0x08, 0x02];
    ShortForm([0x08, 0x01]); ShortForm([0x08, 0x02]);
    assert [One(1), One(2)][1..] == [One(2)] && [One(2)][1..] == [];
    assert EncItems(SAMPLE_ENV, 8, 0, [One(2)]) == [0x42, 0x02, 0x08, 0x02];
  }

  lemma FieldForm(i: nat)
    requires i < 10 && EnvOk(SAMPLE_ENV) && KindOk(SAMPLE_ENV, 1, SAMPLE_ENV[1][i].kind)
    requires SlotOk(SAMPLE_ENV, SAMPLE_ENV[1][i].kind, Sample().slots[i])
    ensures EncSlot(SAMPLE_ENV, 1, SAMPLE_ENV[1][i], Sample().slots[i]) == SampleField(i)
  {
    hide EnvOk, MsgOk, Minimal, EncTag, EncMsg, EncNums, EncItems, Counted, UpToNul, Le;
    Tags();
    match i
    case 0 => assert Minimal(1) == [1] by { Small(1); }
    case 1 => TextForm(); ShortForm(UpToNul(TESTING));
    case 2 =>
      SampleOk(); OneForm(150); TwoBytes(150);
      assert EncMsg(SAMPLE_ENV, 0, One(150)) == [0x08, 0x96, 0x01];
      ShortForm([0x08, 0x96, 0x01]);
    case 3 => NumbersForm(); ShortForm([0x03, 0x8E, 0x02, 0x9E, 0xA7, 0x05]);
    case 4 => Small(3);
    case 5 => WordForms();
    case 6 => WordForms();
    case _ => LaterForm(i);
  }

  lemma LaterForm(i: nat)
    requires 7 <= i < 10 && EnvOk(SAMPLE_ENV) && KindOk(SAMPLE_ENV, 1, SAMPLE_ENV[1][i].kind)
    requires SlotOk(SAMPLE_ENV, SAMPLE_ENV[1][i].kind, Sample().slots[i])
    ensures EncSlot(SAMPLE_ENV, 1, SAMPLE_ENV[1][i], Sample().slots[i]) == SampleField(i)
  {
    hide EnvOk, MsgOk, Minimal, EncTag, EncMsg, EncNums, EncItems, Counted, UpToNul, Le;
    Tags();
    match i
    case 7 => SampleOk(); ItemsForm();
    case 8 => MinusOne();
    case _ => NumbersForm(); ShortForm([0x01, 0xAC, 0x02]);
  }

  lemma Small(v: nat)
    requires v < 128
    ensures Minimal(v) == [v]
  {
  }

  lemma {:induction false} FormFrom(i: nat)
    requires i <= 10 && EnvOk(SAMPLE_ENV) && MsgOk(SAMPLE_ENV, 1, Sample())
    ensures EncFrom(SAMPLE_ENV, 1, Sample(), i) == SampleFrom(i)
    decreases 10 - i
  {
    hide EncSlot, SampleField, SlotOk;
    if i < 10 {
      assert DescOk(SAMPLE_ENV, 1);
      var m := Sample();
      assert SlotOk(SAMPLE_ENV, SAMPLE_ENV[1][i].kind, m.slots[i]);
      FieldForm(i);
      FormFrom(i + 1);
    }
  }

  lemma SamplePlain()
    requires EnvOk(SAMPLE_ENV) && MsgOk(SAMPLE_ENV, 1, Sample())
    ensures Plain(SAMPLE_ENV, 1, Sample()) && Encodable(SAMPLE_ENV, 1, Sample())
  {
    hide PlainSlot, SlotEncodable, SlotOk;
    var m := Sample();
    forall i | 0 <= i < 10
      ensures DescOk(SAMPLE_ENV, 1) && PlainSlot(SAMPLE_ENV, 1, SAMPLE_ENV[1][i].kind, m.slots[i])
      ensures SlotEncodable(SAMPLE_ENV, SAMPLE_ENV[1][i].kind, m.slots[i])
    {
      assert DescOk(SAMPLE_ENV, 1);
      assert SlotOk(SAMPLE_ENV, SAMPLE_ENV[1][i].kind, m.slots[i]);
      PlainField(i);
    }
  }

  lemma PlainOne(v: int)
    requires EnvOk(SAMPLE_ENV) && MsgOk(SAMPLE_ENV, 0, One(v))
    ensures Plain(SAMPLE_ENV, 0, One(v)) && Encodable(SAMPLE_ENV, 0, One(v))
  {
    assert DescOk(SAMPLE_ENV, 0);
  }

  lemma PlainField(i: nat)
    requires i < 10 && EnvOk(SAMPLE_ENV) && KindOk(SAMPLE_ENV, 1, SAMPLE_ENV[1][i].kind)
    requires SlotOk(SAMPLE_ENV, SAMPLE_ENV[1][i].kind, Sample().slots[i])
    ensures PlainSlot(SAMPLE_ENV, 1, SAMPLE_ENV[1][i].kind, Sample().slots[i])
    ensures SlotEncodable(SAMPLE_ENV, SAMPLE_ENV[1][i].kind, Sample().slots[i])
  {
    hide EnvOk, MsgOk, Plain, Encodable, Default;
    var slot := Sample().slots[i];
    match i
    case 1 => assert 0 !in TESTING[..7];
    case 2 => SampleOk(); PlainOne(150);
    case 7 =>
      SampleOk(); PlainOne(1); PlainOne(2);
      forall j | 0 <= j < 2 ensures Plain(SAMPLE_ENV, 0, slot.items[j]) && Encodable(SAMPLE_ENV, 0, slot.items[j]) {}
    case _ =>
  }

  lemma SampleLength()
    ensures |SampleFrom(0)| < U32
  {
    hide SampleField;
    forall i | 0 <= i < 10 ensures |SampleField(i)| < 16 { FieldLength(i); }
    assert |SampleFrom(8)| < 32;
    assert |SampleFrom(6)| < 64;
    assert |SampleFrom(4)| < 96;
    assert |SampleFrom(2)| < 128;
  }

  lemma FieldLength(i: nat)
    requires i < 10
    ensures |SampleField(i)| < 16
  {
  }

  lemma SampleErased()
    ensures Erase(Sample()) == Sample()
  {
    var m := Sample();
    assert Erase(One(150)).slots == One(150).slots && Erase(One(1)).slots == One(1).slots;
    assert Erase(One(2)).slots == One(2).slots;
    assert EraseSlot(m.slots[7]).items == m.slots[7].items;
    assert Erase(m).slots == m.slots;
  }

  /** The message is sent as the bytes of the standard, in the order of its fields, and they are read as the message. */
  lemma SampleRoundTrip()
    ensures EnvOk(SAMPLE_ENV) && MsgOk(SAMPLE_ENV, 1, Sample())
    ensures EncMsg(SAMPLE_ENV, 1, Sample()) == SampleFrom(0)
    ensures DecMsg(SAMPLE_ENV, 1, SampleFrom(0), Default(SAMPLE_ENV, 1)) == Some(Sample())
  {
    hide EncFrom, DecMsg, SampleField;
    SampleOk();
    FormFrom(0);
    SamplePlain();
    SampleLength();
    ComesBack(SAMPLE_ENV, 1, Sample());
    SampleErased();
  }
}
