/** The wire format as functions: what pb_encode emits for a message and what pb_decode makes of bytes. */
module Wire {
  import opened Prelude
  import opened Varint
  import opened IStreams
  import opened Schema

  // ---------- scalars ----------

  /** Two's complement bit pattern of an int64. */
  function ToU64(v: int): (w: nat)
    requires -U63 <= v < U63
  {
    if v < 0 then v + U64 else v
  }

  function ZigZag(v: int): (w: nat)
    requires -U63 <= v < U63
  {
    if v < 0 then -2 * v - 1 else 2 * v
  }

  function UnZigZag(w: nat): int {
    if w % 2 == 1 then -(w / 2) - 1 else w / 2
  }

  /** Cast to int64 or int32: the residue read as a signed number. */
  function Signed(w: nat, modulus: nat): int
    requires modulus > 0
  {
    var r := w % modulus;
    if r >= modulus / 2 then r - modulus else r
  }

  /** Little-endian bytes of a fixed-width number. */
  function Le(n: nat, v: nat): (bs: bytes)
    ensures |bs| == n
  {
    if n == 0 then [] else [v % 256] + Le(n - 1, v / 256)
  }

  function FromLe(bs: bytes): nat {
    if bs == [] then 0 else bs[0] + 256 * FromLe(bs[1..])
  }

  /** PB_LTYPE to wire type, as in pb_encode_tag_for_field. */
  function WireType(lt: LType): nat {
    match lt
    case LFixed32 => WT_32BIT
    case LFixed64 => WT_64BIT
    case _ => WT_VARINT
  }

  function EncScalar(s: Scalar, v: int): (bs: bytes)
    requires s.Ok() && s.Holds(v)
    ensures |bs| > 0
  {
    match s.lt
    case LBool => Minimal(if v != 0 then 1 else 0)
    case LUVarint => Minimal(v)
    case LVarint => Minimal(ToU64(v))
    case LSVarint => Minimal(ZigZag(v))
    case LFixed32 => Le(4, v)
    case LFixed64 => Le(8, v)
  }

  /** pb_dec_bool, pb_dec_varint, pb_decode_fixed32/64: the value must fit the member exactly. */
  function DecScalar(s: Scalar, bs: bytes): (r: Option<(int, bytes)>)
    requires s.Ok()
    ensures r.Some? ==> s.Holds(r.value.0) && |r.value.1| < |bs|
  {
    match s.lt
    case LBool =>
      (match Read32(bs)
       case Some((w, rest)) => Some((if w != 0 then 1 else 0, rest))
       case None => None)
    case LUVarint =>
      (match Read64(bs)
       case Some((w, rest)) => if w < Modulus(s.size) then Some((w, rest)) else None
       case None => None)
    case LVarint =>
      (match Read64(bs)
       case Some((w, rest)) =>
         var v := Signed(w, if s.size == 8 then U64 else U32);
         if s.Holds(v) then Some((v, rest)) else None
       case None => None)
    case LSVarint =>
      (match Read64(bs)
       case Some((w, rest)) =>
         var v := UnZigZag(w);
         if s.Holds(v) then Some((v, rest)) else None
       case None => None)
    case LFixed32 => if |bs| < 4 then None else LeBound(bs[..4]); Some((FromLe(bs[..4]), bs[4..]))
    case LFixed64 => if |bs| < 8 then None else LeBound(bs[..8]); Some((FromLe(bs[..8]), bs[8..]))
  }

  lemma {:induction false} LeBound(bs: bytes)
    ensures |bs| == 4 ==> FromLe(bs) < U32
    ensures |bs| == 8 ==> FromLe(bs) < U64
  {
    if |bs| >= 4 {
      FourBytes(bs);
      if |bs| == 8 { FourBytes(bs[4..]); assert bs[4..][4..] == []; }
      if |bs| == 4 { assert bs[4..] == []; }
    }
  }

  lemma FourBytes(bs: bytes)
    requires |bs| >= 4
    ensures FromLe(bs) < U32 + U32 * FromLe(bs[4..])
  {
    assert bs[1..][1..] == bs[2..] && bs[2..][1..] == bs[3..] && bs[3..][1..] == bs[4..];
    var a, b, c, d := FromLe(bs[1..]), FromLe(bs[2..]), FromLe(bs[3..]), FromLe(bs[4..]);
    assert a == bs[1] + 256 * b;
    assert b == bs[2] + 256 * c;
    assert c == bs[3] + 256 * d;
  }

  // ---------- encoding ----------

  function EncTag(wt: nat, tag: nat): bytes {
    Minimal(8 * tag + wt)
  }

  /** Length and bytes; the length is a size_t. */
  function Counted(bs: bytes): (r: bytes)
    ensures |bs| < |r|
  {
    Minimal(|bs| % U32) + bs
  }

  /** The characters of a C string. */
  function UpToNul(cs: bytes): (r: bytes)
    ensures |r| <= |cs|
  {
    if cs == [] || cs[0] == 0 then [] else [cs[0]] + UpToNul(cs[1..])
  }

  /** An array element. encode_array writes bools through pb_enc_varint too, which reads them as int8. */
  function EncElem(s: Scalar, v: int): (bs: bytes)
    requires s.Ok() && s.Holds(v)
  {
    if s.lt.LBool? then Minimal(ToU64(Signed(v, 0x100))) else EncScalar(s, v)
  }

  function EncNums(s: Scalar, vs: seq<int>): bytes
    requires s.Ok() && forall i | 0 <= i < |vs| :: s.Holds(vs[i])
  {
    if vs == [] then [] else EncElem(s, vs[0]) + EncNums(s, vs[1..])
  }

  /** pb_encode. */
  function EncMsg(env: Env, k: nat, m: Msg): bytes
    requires EnvOk(env) && k < |env| && MsgOk(env, k, m)
    decreases m, 1
  {
    EncFrom(env, k, m, 0)
  }

  /** The fields from index i on, in descriptor order. */
  function EncFrom(env: Env, k: nat, m: Msg, i: nat): bytes
    requires EnvOk(env) && k < |env| && MsgOk(env, k, m) && i <= |m.slots|
    decreases m, 0, |m.slots| - i
  {
    if i == |m.slots| then []
    else
      assert DescOk(env, k);
      EncSlot(env, k, env[k][i], m.slots[i]) + EncFrom(env, k, m, i + 1)
  }

  /** encode_field: nothing for zero numbers, NULL pointers, absent submessages and empty arrays. */
  function EncSlot(env: Env, k: nat, f: Field, slot: Slot): bytes
    requires EnvOk(env) && KindOk(env, k, f.kind) && SlotOk(env, f.kind, slot)
    decreases slot
  {
    match f.kind
    case Singular(s) => if slot.v == 0 then [] else EncTag(WireType(s.lt), f.tag) + EncScalar(s, slot.v)
    case PtrString => if slot.addr.Null? then [] else EncTag(WT_STRING, f.tag) + Counted(UpToNul(slot.chars))
    case OptMsg(sub) => if !slot.has then [] else EncTag(WT_STRING, f.tag) + Counted(EncMsg(env, sub, slot.msg))
    case PtrMsgs(sub) => EncItems(env, f.tag, sub, slot.items)
    case PtrScalars(s) => EncPacked(f.tag, s, slot.vals)
    case ArrScalars(s, _) => EncPacked(f.tag, s, slot.vals)
  }

  /** Arrays of numbers are sent packed. */
  function EncPacked(tag: nat, s: Scalar, vs: seq<int>): bytes
    requires s.Ok() && forall i | 0 <= i < |vs| :: s.Holds(vs[i])
  {
    if vs == [] then [] else EncTag(WT_STRING, tag) + Counted(EncNums(s, vs))
  }

  function EncItems(env: Env, tag: nat, sub: nat, items: seq<Msg>): bytes
    requires EnvOk(env) && sub < |env| && forall i | 0 <= i < |items| :: MsgOk(env, sub, items[i])
    decreases items
  {
    if items == [] then []
    else EncTag(WT_STRING, tag) + Counted(EncMsg(env, sub, items[0])) + EncItems(env, tag, sub, items[1..])
  }

  /** Whether encode_array accepts every array it meets: a static one must not claim more than its size. */
  predicate Encodable(env: Env, k: nat, m: Msg)
    requires k < |env|
    decreases m
  {
    forall i | 0 <= i < |m.slots| && i < |env[k]| :: SlotEncodable(env, env[k][i].kind, m.slots[i])
  }

  predicate SlotEncodable(env: Env, kind: Kind, slot: Slot)
    decreases slot
  {
    match slot
    case Arr(vs) => kind.ArrScalars? ==> |vs| <= kind.cap
    case Sub(has, msg) => has && kind.OptMsg? && kind.sub < |env| ==> Encodable(env, kind.sub, msg)
    case Msgs(_, items) =>
      kind.PtrMsgs? && kind.sub < |env| ==> forall i | 0 <= i < |items| :: Encodable(env, kind.sub, items[i])
    case _ => true
  }

  // ---------- decoding ----------

  /** pb_decode_inner with NOINIT: all of bs decoded into m; None is a decoding error. */
  function DecMsg(env: Env, k: nat, bs: bytes, m: Msg): (r: Option<Msg>)
    requires EnvOk(env) && k < |env| && MsgOk(env, k, m)
    ensures r.Some? ==> MsgOk(env, k, r.value)
    decreases |bs|, 2
  {
    if bs == [] then Some(m)
    else
      match DecRecord(env, k, bs, m)
      case Some((m', rest)) => DecMsg(env, k, rest, m')
      case None => None
  }

  /** One turn of the loop: a tag and its data. Unknown fields are skipped. */
  function DecRecord(env: Env, k: nat, bs: bytes, m: Msg): (r: Option<(Msg, bytes)>)
    requires EnvOk(env) && k < |env| && MsgOk(env, k, m)
    ensures r.Some? ==> MsgOk(env, k, r.value.0) && |r.value.1| < |bs|
    decreases |bs|, 1
  {
    match ReadTag(bs)
    case None => None
    case Some((tag, wt, data)) =>
      if tag == 0 then None
      else match Find(env[k], tag)
        case None => (match SkipField(data, wt) case Some(rest) => Some((m, rest)) case None => None)
        case Some(i) =>
          assert DescOk(env, k);
          match DecSlot(env, k, env[k][i].kind, wt, data, m.slots[i])
          case Some((slot, rest)) => Some((Msg(m.slots[i := slot]), rest))
          case None => None
  }

  /** decode_field. Numbers are last-wins, static submessages merge, repeated fields append. */
  function DecSlot(env: Env, k: nat, kind: Kind, wt: nat, bs: bytes, slot: Slot): (r: Option<(Slot, bytes)>)
    requires EnvOk(env) && KindOk(env, k, kind) && SlotOk(env, kind, slot)
    ensures r.Some? ==> SlotOk(env, kind, r.value.0) && |r.value.1| <= |bs|
    decreases |bs|, 0
  {
    match kind
    case Singular(s) =>
      (match DecTyped(s, wt, bs)
       case Some((v, rest)) => Some((Num(v), rest))
       case None => None)
    case PtrString =>
      if wt != WT_STRING then None
      else (match Delimited(bs)
            case Some((cs, rest)) => if |cs| == U32 - 1 then None else Some((Str(At(0), cs + [0]), rest))
            case None => None)
    case OptMsg(sub) =>
      if wt != WT_STRING then None
      else (match Delimited(bs)
            case None => None
            case Some((payload, rest)) =>
              match DecMsg(env, sub, payload, slot.msg)
              case Some(msg) => Some((Sub(true, msg), rest))
              case None => None)
    case PtrMsgs(sub) =>
      if wt != WT_STRING || |slot.items| == SIZE_MAX then None
      else (match Delimited(bs)
            case None => None
            case Some((payload, rest)) =>
              match DecMsg(env, sub, payload, Default(env, sub))
              case Some(msg) => Some((Msgs(At(0), slot.items + [msg]), rest))
              case None => None)
    case PtrScalars(s) =>
      (match DecArray(s, SIZE_MAX, wt, bs, slot.vals)
       case Some((vs, rest)) => Some((Nums(if vs == slot.vals then slot.addr else At(0), vs), rest))
       case None => None)
    case ArrScalars(s, cap) =>
      (match DecArray(s, cap, wt, bs, slot.vals)
       case Some((vs, rest)) => Some((Arr(vs), rest))
       case None => None)
  }

  /** decode_basic_field on a number: the wire type must be the field's own. */
  function DecTyped(s: Scalar, wt: nat, bs: bytes): (r: Option<(int, bytes)>)
    requires s.Ok()
    ensures r.Some? ==> s.Holds(r.value.0) && |r.value.1| < |bs|
  {
    if wt == WireType(s.lt) then DecScalar(s, bs) else None
  }

  /** A repeated number field: one element, or a packed run of them; at most cap in all. */
  function DecArray(s: Scalar, cap: nat, wt: nat, bs: bytes, vs: seq<int>): (r: Option<(seq<int>, bytes)>)
    requires s.Ok() && cap <= SIZE_MAX && |vs| <= SIZE_MAX && forall i | 0 <= i < |vs| :: s.Holds(vs[i])
    ensures r.Some? ==> |r.value.0| <= SIZE_MAX && (forall i | 0 <= i < |r.value.0| :: s.Holds(r.value.0[i]))
    ensures r.Some? ==> |r.value.1| <= |bs| && vs <= r.value.0
  {
    if wt == WT_STRING then
      match Delimited(bs)
      case None => None
      case Some((payload, rest)) =>
        (match DecPacked(s, cap, payload, vs)
         case Some(ws) => Some((ws, rest))
         case None => None)
    else if |vs| >= cap then None
    else
      match DecTyped(s, wt, bs)
      case Some((v, rest)) => Some((vs + [v], rest))
      case None => None
  }

  function DecPacked(s: Scalar, cap: nat, bs: bytes, vs: seq<int>): (r: Option<seq<int>>)
    requires s.Ok() && cap <= SIZE_MAX && |vs| <= SIZE_MAX && forall i | 0 <= i < |vs| :: s.Holds(vs[i])
    ensures r.Some? ==> |r.value| <= SIZE_MAX && (forall i | 0 <= i < |r.value| :: s.Holds(r.value[i]))
    ensures r.Some? ==> vs <= r.value
    decreases |bs|
  {
    if bs == [] then Some(vs)
    else if |vs| >= cap then None
    else
      match DecScalar(s, bs)
      case Some((v, rest)) => DecPacked(s, cap, rest, vs + [v])
      case None => None
  }
}
