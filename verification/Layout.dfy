/** The writes that pb_encode makes for a message, in order, and the message that overruns its buffer. */
module Layout {
  import opened Prelude
  import opened Varint
  import opened IStreams
  import opened Pieces
  import opened Schema
  import opened Wire

  function LayMsg(env: Env, k: nat, m: Msg): seq<Piece>
    requires EnvOk(env) && k < |env| && MsgOk(env, k, m)
    decreases m, 1
  {
    LayFrom(env, k, m, 0)
  }

  function LayFrom(env: Env, k: nat, m: Msg, i: nat): seq<Piece>
    requires EnvOk(env) && k < |env| && MsgOk(env, k, m) && i <= |m.slots|
    decreases m, 0, |m.slots| - i
  {
    if i == |m.slots| then []
    else
      assert DescOk(env, k);
      LaySlot(env, k, env[k][i], m.slots[i]) + LayFrom(env, k, m, i + 1)
  }

  function LaySlot(env: Env, k: nat, f: Field, slot: Slot): seq<Piece>
    requires EnvOk(env) && KindOk(env, k, f.kind) && SlotOk(env, f.kind, slot)
    decreases slot
  {
    match f.kind
    case Singular(s) => if slot.v == 0 then [] else LayNumber(f.tag, s, slot.v)
    case PtrString => if slot.addr.Null? then [] else [Raw(EncTag(WT_STRING, f.tag))] + LayString(UpToNul(slot.chars))
    case OptMsg(sub) => if !slot.has then [] else [Raw(EncTag(WT_STRING, f.tag))] + LaySub(env, sub, slot.msg)
    case PtrMsgs(sub) => LayItems(env, f.tag, sub, slot.items)
    case PtrScalars(s) => LayPacked(f.tag, s, slot.vals)
    case ArrScalars(s, cap) => if |slot.vals| > cap then [Stop] else LayPacked(f.tag, s, slot.vals)
  }

  function LayNumber(tag: nat, s: Scalar, v: int): seq<Piece>
    requires s.Ok() && s.Holds(v)
  {
    [Raw(EncTag(WireType(s.lt), tag)), Raw(EncScalar(s, v))]
  }

  function LayString(cs: bytes): seq<Piece> {
    [Raw(Minimal(|cs|)), Raw(cs)]
  }

  /** pb_encode_submessage: nothing at all if the sizing pass gives up. */
  function LaySub(env: Env, sub: nat, msg: Msg): seq<Piece>
    requires EnvOk(env) && sub < |env| && MsgOk(env, sub, msg)
    decreases msg, 2
  {
    var ps := LayMsg(env, sub, msg);
    if Whole(ps) then [Raw(Minimal(|Flat(ps)| % U32)), Nested(ps)] else [Stop]
  }

  function LayPacked(tag: nat, s: Scalar, vs: seq<int>): seq<Piece>
    requires s.Ok() && forall i | 0 <= i < |vs| :: s.Holds(vs[i])
  {
    if vs == [] then [] else [Raw(EncTag(WT_STRING, tag)), Raw(Minimal(|EncNums(s, vs)|))] + LayNums(s, vs)
  }

  function LayNums(s: Scalar, vs: seq<int>): seq<Piece>
    requires s.Ok() && forall i | 0 <= i < |vs| :: s.Holds(vs[i])
  {
    if vs == [] then [] else [Raw(EncElem(s, vs[0]))] + LayNums(s, vs[1..])
  }

  function LayItems(env: Env, tag: nat, sub: nat, items: seq<Msg>): seq<Piece>
    requires EnvOk(env) && sub < |env| && forall i | 0 <= i < |items| :: MsgOk(env, sub, items[i])
    decreases items
  {
    if items == [] then []
    else [Raw(EncTag(WT_STRING, tag))] + LaySub(env, sub, items[0]) + LayItems(env, tag, sub, items[1..])
  }

  // ---------- the layout holds the wire form ----------

  lemma {:induction false} MsgLayout(env: Env, k: nat, m: Msg)
    requires EnvOk(env) && k < |env| && MsgOk(env, k, m)
    ensures Whole(LayMsg(env, k, m)) <==> Encodable(env, k, m)
    ensures Encodable(env, k, m) ==> Flat(LayMsg(env, k, m)) == EncMsg(env, k, m)
    decreases m, 1
  {
    FromLayout(env, k, m, 0);
  }

  lemma {:induction false} FromLayout(env: Env, k: nat, m: Msg, i: nat)
    requires EnvOk(env) && k < |env| && MsgOk(env, k, m) && i <= |m.slots|
    ensures Whole(LayFrom(env, k, m, i))
            <==> forall j | i <= j < |m.slots| :: SlotEncodable(env, env[k][j].kind, m.slots[j])
    ensures Whole(LayFrom(env, k, m, i)) ==> Flat(LayFrom(env, k, m, i)) == EncFrom(env, k, m, i)
    decreases m, 0, |m.slots| - i
  {
    hide LaySlot, EncSlot, SlotEncodable, Whole, Flat, FlatPiece;
    if i == |m.slots| {
      Empty();
    } else {
      assert DescOk(env, k);
      SlotLayout(env, k, env[k][i], m.slots[i]);
      FromLayout(env, k, m, i + 1);
      FlatSum(LaySlot(env, k, env[k][i], m.slots[i]), LayFrom(env, k, m, i + 1));
    }
  }

  lemma Empty()
    ensures Whole([]) && Flat([]) == []
  {
  }

  lemma Two(x: bytes, y: bytes)
    ensures Whole([Raw(x), Raw(y)]) && Flat([Raw(x), Raw(y)]) == x + y
  {
    One(Raw(x)); One(Raw(y));
    FlatSum([Raw(x)], [Raw(y)]);
    assert [Raw(x)] + [Raw(y)] == [Raw(x), Raw(y)];
  }

  lemma {:induction false} SlotLayout(env: Env, k: nat, f: Field, slot: Slot)
    requires EnvOk(env) && KindOk(env, k, f.kind) && SlotOk(env, f.kind, slot)
    ensures Whole(LaySlot(env, k, f, slot)) <==> SlotEncodable(env, f.kind, slot)
    ensures Whole(LaySlot(env, k, f, slot)) ==> Flat(LaySlot(env, k, f, slot)) == EncSlot(env, k, f, slot)
    decreases slot
  {
    hide LaySub, LayPacked, LayItems, EncTag, EncScalar, Counted, EncMsg, Encodable, EncPacked, EncItems, Whole, Flat,
         FlatPiece;
    Empty();
    match f.kind
    case Singular(s) =>
      if slot.v != 0 { Two(EncTag(WireType(s.lt), f.tag), EncScalar(s, slot.v)); }
    case PtrString =>
      if slot.addr.At? {
        var (t, cs) := (Raw(EncTag(WT_STRING, f.tag)), UpToNul(slot.chars));
        TextLayout(slot.chars);
        One(t); PieceBytes(t);
        FlatSum([t], LayString(cs));
      }
    case OptMsg(sub) =>
      if slot.has { TaggedSub(env, f.tag, sub, slot.msg); }
    case PtrMsgs(sub) => ItemsLayout(env, f.tag, sub, slot.items);
    case PtrScalars(s) => PackedLayout(f.tag, s, slot.vals);
    case ArrScalars(s, cap) =>
      PackedLayout(f.tag, s, slot.vals);
      One(Stop);
  }

  lemma TextLayout(cs: bytes)
    requires 0 in cs && |cs| <= U32
    ensures |UpToNul(cs)| < U32 && Whole(LayString(UpToNul(cs))) && Flat(LayString(UpToNul(cs))) == Counted(UpToNul(cs))
  {
    hide Minimal, Whole, Flat;
    NulInside(cs);
    Two(Minimal(|UpToNul(cs)|), UpToNul(cs));
  }

  lemma {:induction false} NulInside(cs: bytes)
    requires 0 in cs
    ensures |UpToNul(cs)| < |cs|
  {
    if cs[0] != 0 { NulInside(cs[1..]); }
  }

  lemma {:induction false} TaggedSub(env: Env, tag: nat, sub: nat, msg: Msg)
    requires EnvOk(env) && sub < |env| && MsgOk(env, sub, msg)
    ensures var ps := [Raw(EncTag(WT_STRING, tag))] + LaySub(env, sub, msg);
            && (Whole(ps) <==> Encodable(env, sub, msg))
            && (Whole(ps) ==> Flat(ps) == EncTag(WT_STRING, tag) + Counted(EncMsg(env, sub, msg)))
    decreases msg, 3
  {
    hide EncTag, EncMsg, LayMsg, Encodable, Whole, Flat, FlatPiece, Minimal;
    MsgLayout(env, sub, msg);
    var ps := LayMsg(env, sub, msg);
    var t := Raw(EncTag(WT_STRING, tag));
    One(t);
    FlatSum([t], LaySub(env, sub, msg));
    if Whole(ps) {
      var n := Raw(Minimal(|Flat(ps)| % U32));
      One(n); One(Nested(ps));
      FlatSum([n], [Nested(ps)]);
      assert [n] + [Nested(ps)] == LaySub(env, sub, msg);
      PieceBytes(n); PieceBytes(Nested(ps)); PieceBytes(t);
    } else {
      One(Stop);
    }
    PieceBytes(t);
  }

  lemma PieceBytes(p: Piece)
    ensures p.Raw? ==> FlatPiece(p) == p.bs
    ensures p.Nested? ==> FlatPiece(p) == Flat(p.ps)
  {
  }

  lemma {:induction false} ItemsLayout(env: Env, tag: nat, sub: nat, items: seq<Msg>)
    requires EnvOk(env) && sub < |env| && forall i | 0 <= i < |items| :: MsgOk(env, sub, items[i])
    ensures Whole(LayItems(env, tag, sub, items)) <==> forall i | 0 <= i < |items| :: Encodable(env, sub, items[i])
    ensures Whole(LayItems(env, tag, sub, items))
            ==> Flat(LayItems(env, tag, sub, items)) == EncItems(env, tag, sub, items)
    decreases items
  {
    hide LaySub, EncTag, Counted, EncMsg, Encodable, MsgOk, Whole, Flat;
    if items == [] {
      Empty();
    } else {
      TaggedSub(env, tag, sub, items[0]);
      ItemsLayout(env, tag, sub, items[1..]);
      FlatSum([Raw(EncTag(WT_STRING, tag))] + LaySub(env, sub, items[0]), LayItems(env, tag, sub, items[1..]));
      AllOfThem(env, sub, items);
    }
  }

  lemma AllOfThem(env: Env, sub: nat, items: seq<Msg>)
    requires sub < |env| && items != []
    ensures (forall i | 0 <= i < |items| :: Encodable(env, sub, items[i]))
       <==> Encodable(env, sub, items[0]) && forall i | 0 <= i < |items[1..]| :: Encodable(env, sub, items[1..][i])
  {
    hide Encodable;
    assert forall i | 1 <= i < |items| :: items[i] == items[1..][i - 1];
  }

  lemma PackedLayout(tag: nat, s: Scalar, vs: seq<int>)
    requires s.Ok() && |vs| <= SIZE_MAX && forall i | 0 <= i < |vs| :: s.Holds(vs[i])
    ensures Whole(LayPacked(tag, s, vs)) && Flat(LayPacked(tag, s, vs)) == EncPacked(tag, s, vs)
  {
    hide EncTag, Minimal, EncNums, LayNums, Whole, Flat;
    Empty();
    if vs != [] {
      var (t, n) := (EncTag(WT_STRING, tag), Minimal(|EncNums(s, vs)|));
      NumsLayout(s, vs);
      Two(t, n);
      FlatSum([Raw(t), Raw(n)], LayNums(s, vs));
      assert t + n + EncNums(s, vs) == t + (n + EncNums(s, vs));
    }
  }

  /** The elements of an array, of which there are at most 65535, never take 2^32 bytes. */
  lemma {:induction false} NumsLayout(s: Scalar, vs: seq<int>)
    requires s.Ok() && |vs| <= SIZE_MAX && forall i | 0 <= i < |vs| :: s.Holds(vs[i])
    ensures Whole(LayNums(s, vs)) && Flat(LayNums(s, vs)) == EncNums(s, vs) && |EncNums(s, vs)| <= 10 * |vs| < U32
  {
    hide EncElem, Whole, Flat, FlatPiece;
    if vs == [] {
      Empty();
    } else {
      var e := Raw(EncElem(s, vs[0]));
      NumsLayout(s, vs[1..]);
      ElemLength(s, vs[0]);
      One(e); PieceBytes(e);
      FlatSum([e], LayNums(s, vs[1..]));
    }
  }

  lemma ElemLength(s: Scalar, v: int)
    requires s.Ok() && s.Holds(v)
    ensures |EncElem(s, v)| <= 10
  {
    hide Minimal;
    match s.lt
    case LBool => Minimal64(ToU64(Signed(v, 0x100)));
    case LUVarint => Minimal64(v);
    case LVarint => Minimal64(ToU64(v));
    case LSVarint => Minimal64(ZigZag(v));
    case _ =>
  }
}
