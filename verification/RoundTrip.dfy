/** pb_decode of what pb_encode writes gives the message back. */
module RoundTrip {
  import opened Prelude
  import opened Varint
  import opened IStreams
  import opened Schema
  import opened Wire

  // ---------- what survives ----------

  /** A bool member comes back as 0 or 1; every other number exactly. */
  function NormVal(s: Scalar, v: int): int {
    if s.lt.LBool? && v != 0 then 1 else v
  }

  function NormVals(s: Scalar, vs: seq<int>): (ws: seq<int>)
    ensures |ws| == |vs|
  {
    seq(|vs|, i requires 0 <= i < |vs| => NormVal(s, vs[i]))
  }

  /** The message as it comes back: bytes after a string's terminator are gone, an absent submessage is
      at its defaults, a pointer array without entries is NULL. Nothing else changes. */
  function Norm(env: Env, k: nat, m: Msg): (r: Msg)
    requires EnvOk(env) && k < |env| && MsgOk(env, k, m)
    ensures |r.slots| == |m.slots|
    decreases m
  {
    Msg(seq(|m.slots|, i requires 0 <= i < |m.slots| =>
      assert DescOk(env, k); NormSlot(env, k, env[k][i].kind, m.slots[i])))
  }

  function NormSlot(env: Env, k: nat, kind: Kind, slot: Slot): Slot
    requires EnvOk(env) && KindOk(env, k, kind) && SlotOk(env, kind, slot)
    decreases slot
  {
    match kind
    case Singular(s) => Num(NormVal(s, slot.v))
    case PtrString => if slot.addr.Null? then slot else Str(At(0), UpToNul(slot.chars) + [0])
    case OptMsg(sub) => if slot.has then Sub(true, Norm(env, sub, slot.msg)) else Sub(false, Default(env, sub))
    case PtrMsgs(sub) => if slot.items == [] then Msgs(Null, []) else Msgs(At(0), NormItems(env, sub, slot.items))
    case PtrScalars(s) => if slot.vals == [] then Nums(Null, []) else Nums(At(0), NormVals(s, slot.vals))
    case ArrScalars(s, _) => Arr(NormVals(s, slot.vals))
  }

  function NormItems(env: Env, sub: nat, items: seq<Msg>): (r: seq<Msg>)
    requires EnvOk(env) && sub < |env| && forall i | 0 <= i < |items| :: MsgOk(env, sub, items[i])
    ensures |r| == |items|
    decreases items
  {
    if items == [] then [] else [Norm(env, sub, items[0])] + NormItems(env, sub, items[1..])
  }

  // ---------- scalars, tags, payloads ----------

  lemma Read32Minimal(v: nat, tail: bytes)
    requires v < U32
    ensures Read32(Minimal(v) + tail) == Some((v, tail))
  {
    Read64Minimal(v, tail);
    ShortAcceptsSmall(Minimal(v) + tail);
  }

  lemma TagRoundTrip(wt: nat, tag: nat, tail: bytes)
    requires wt < 8 && tag < U16
    ensures ReadTag(EncTag(wt, tag) + tail) == Some((tag, wt, tail))
  {
    hide Read32, Minimal;
    Read32Minimal(8 * tag + wt, tail);
  }

  lemma CountedRoundTrip(payload: bytes, tail: bytes)
    requires |payload| < U32
    ensures Delimited(Counted(payload) + tail) == Some((payload, tail))
  {
    assert Counted(payload) + tail == Minimal(|payload|) + (payload + tail);
    Read32Minimal(|payload|, payload + tail);
  }

  /** Little-endian words of every width are read back. */
  lemma LeRoundTrip(n: nat, v: nat, tail: bytes)
    requires v < Pow256(n)
    ensures FromLe((Le(n, v) + tail)[..n]) == v && (Le(n, v) + tail)[n..] == tail
  {
    var bs := Le(n, v);
    assert (bs + tail)[..n] == bs && (bs + tail)[n..] == tail;
    LeValue(n, v);
  }

  lemma WordSizes()
    ensures Pow256(4) == U32 && Pow256(8) == U64
  {
    assert Pow256(2) == U16;
    assert Pow256(6) == 0x1_0000_0000_0000;
  }

  function Pow256(n: nat): (p: nat)
    ensures p >= 1
  {
    if n == 0 then 1 else 256 * Pow256(n - 1)
  }

  lemma {:induction false} LeValue(n: nat, v: nat)
    ensures v < Pow256(n) ==> FromLe(Le(n, v)) == v
  {
    if n > 0 {
      LeValue(n - 1, v / 256);
      assert Le(n, v)[1..] == Le(n - 1, v / 256);
    }
  }

  lemma ScalarRoundTrip(s: Scalar, v: int, tail: bytes)
    requires s.Ok() && s.Holds(v)
    ensures DecScalar(s, EncScalar(s, v) + tail) == Some((NormVal(s, v), tail))
  {
    hide Read32, Read64, Minimal, Le, FromLe;
    match s.lt
    case LBool => Read32Minimal(if v != 0 then 1 else 0, tail);
    case LUVarint => Read64Minimal(v, tail);
    case LVarint => Read64Minimal(ToU64(v), tail); SignedToU64(s.size, v);
    case LSVarint => Read64Minimal(ZigZag(v), tail);
    case LFixed32 => WordSizes(); LeRoundTrip(4, v, tail);
    case LFixed64 => WordSizes(); LeRoundTrip(8, v, tail);
  }

  /** The decoder's casts undo sign extension, for 8, 16 and 32-bit members through int32. */
  lemma SignedToU64(size: nat, v: int)
    requires size in {1, 2, 4, 8} && -(Modulus(size) / 2) <= v < Modulus(size) / 2
    ensures Signed(ToU64(v), if size == 8 then U64 else U32) == v
  {
    if v < 0 {
      if size == 8 { assert ToU64(v) % U64 == v + U64; }
      else { NegativeResidue(v); }
    } else {
      if size == 8 { assert ToU64(v) % U64 == v; }
      else { assert ToU64(v) % U32 == v; }
    }
  }

  lemma NegativeResidue(v: int)
    requires -U31 <= v < 0
    ensures (v + U64) % U32 == v + U32
  {
    Residue(U32 - 1, v + U32);
    assert v + U64 == (v + U32) + U32 * (U32 - 1);
  }

  /** A bool whose byte is 128 or more is sent as a negative number, which the short reader still takes. */
  lemma ElemRoundTrip(s: Scalar, v: int, tail: bytes)
    requires s.Ok() && s.Holds(v)
    ensures DecScalar(s, EncElem(s, v) + tail) == Some((NormVal(s, v), tail)) && |EncElem(s, v)| > 0
  {
    hide Read32, Read64, Minimal, EncScalar;
    if s.lt.LBool? {
      if v >= 0x80 { ShortAcceptsNegative(ToU64(v - 0x100), tail); } else { Read32Minimal(v, tail); }
    } else {
      ScalarRoundTrip(s, v, tail);
    }
  }

  lemma {:induction false} PackedRoundTrip(s: Scalar, cap: nat, vs: seq<int>, ws: seq<int>)
    requires s.Ok() && forall i | 0 <= i < |vs| :: s.Holds(vs[i])
    requires forall i | 0 <= i < |ws| :: s.Holds(ws[i])
    requires |ws| + |vs| <= cap <= SIZE_MAX
    ensures DecPacked(s, cap, EncNums(s, vs), ws) == Some(ws + NormVals(s, vs))
  {
    hide DecScalar, EncElem;
    if vs == [] {
      assert ws + NormVals(s, vs) == ws;
    } else {
      var v := NormVal(s, vs[0]);
      ElemRoundTrip(s, vs[0], EncNums(s, vs[1..]));
      PackedRoundTrip(s, cap, vs[1..], ws + [v]);
      assert ws + [v] + NormVals(s, vs[1..]) == ws + NormVals(s, vs);
    }
  }

  // ---------- one field ----------

  /** Tags are distinct, so a field's own tag finds the field. */
  lemma FindOwn(env: Env, k: nat, i: nat)
    requires EnvOk(env) && k < |env| && i < |env[k]|
    ensures Find(env[k], env[k][i].tag) == Some(i)
  {
    assert DescOk(env, k);
  }

  lemma OneRecord(env: Env, k: nat, m: Msg, i: nat, wt: nat, data: bytes, slot: Slot, tail: bytes)
    requires EnvOk(env) && k < |env| && MsgOk(env, k, m) && i < |m.slots| && wt < 8
    requires DescOk(env, k) && DecSlot(env, k, env[k][i].kind, wt, data, m.slots[i]) == Some((slot, tail))
    ensures MsgOk(env, k, Msg(m.slots[i := slot]))
    ensures DecMsg(env, k, EncTag(wt, env[k][i].tag) + data, m) == DecMsg(env, k, tail, Msg(m.slots[i := slot]))
  {
    TagRoundTrip(wt, env[k][i].tag, data);
    FindOwn(env, k, i);
    assert |EncTag(wt, env[k][i].tag)| > 0;
  }

  /** Decoding what one field emitted, into a structure where that field is at its default. */
  lemma {:induction false} SlotRoundTrip(env: Env, k: nat, i: nat, slot: Slot, acc: Msg, tail: bytes)
    requires EnvOk(env) && k < |env| && i < |env[k]| && MsgOk(env, k, acc) && DescOk(env, k)
    requires SlotOk(env, env[k][i].kind, slot) && SlotEncodable(env, env[k][i].kind, slot)
    requires acc.slots[i] == DefaultSlot(env, k, env[k][i].kind)
    requires |EncSlot(env, k, env[k][i], slot)| < U32
    ensures var done := Msg(acc.slots[i := NormSlot(env, k, env[k][i].kind, slot)]);
            && MsgOk(env, k, done)
            && DecMsg(env, k, EncSlot(env, k, env[k][i], slot) + tail, acc) == DecMsg(env, k, tail, done)
    decreases slot, 0
  {
    hide Delimited, Counted, EncTag, DecScalar, EncScalar, DecMsg;
    var f := env[k][i];
    var out := EncSlot(env, k, f, slot);
    var norm := NormSlot(env, k, f.kind, slot);
    match f.kind
    case Singular(s) =>
      if slot.v != 0 {
        ScalarRoundTrip(s, slot.v, tail);
        OneRecord(env, k, acc, i, WireType(s.lt), EncScalar(s, slot.v) + tail, norm, tail);
        assert out + tail == EncTag(WireType(s.lt), f.tag) + (EncScalar(s, slot.v) + tail);
      } else { Unchanged(acc, i, tail); }
    case PtrString =>
      if slot.addr.At? {
        var cs := UpToNul(slot.chars);
        CountedRoundTrip(cs, tail);
        OneRecord(env, k, acc, i, WT_STRING, Counted(cs) + tail, norm, tail);
        assert out + tail == EncTag(WT_STRING, f.tag) + (Counted(cs) + tail);
      } else { Unchanged(acc, i, tail); }
    case OptMsg(sub) =>
      if slot.has {
        var payload := EncMsg(env, sub, slot.msg);
        FieldsRoundTrip(env, sub, slot.msg, 0, Default(env, sub));
        CountedRoundTrip(payload, tail);
        OneRecord(env, k, acc, i, WT_STRING, Counted(payload) + tail, norm, tail);
        assert out + tail == EncTag(WT_STRING, f.tag) + (Counted(payload) + tail);
      } else { Unchanged(acc, i, tail); }
    case PtrMsgs(sub) =>
      if slot.items == [] { Unchanged(acc, i, tail); }
      else {
        ItemsRoundTrip(env, k, i, slot.items, [], acc, tail);
        assert [] + NormItems(env, sub, slot.items) == NormItems(env, sub, slot.items);
      }
    case PtrScalars(s) =>
      if slot.vals == [] { Unchanged(acc, i, tail); }
      else { ArrayRoundTrip(env, k, i, s, SIZE_MAX, slot.vals, acc, norm, tail); }
    case ArrScalars(s, cap) =>
      if slot.vals == [] { Unchanged(acc, i, tail); assert norm == Arr([]); }
      else { ArrayRoundTrip(env, k, i, s, cap, slot.vals, acc, norm, tail); }
  }

  lemma Unchanged(acc: Msg, i: nat, tail: bytes)
    requires i < |acc.slots|
    ensures Msg(acc.slots[i := acc.slots[i]]) == acc && [] + tail == tail
  {
  }

  lemma ArrayRoundTrip(env: Env, k: nat, i: nat, s: Scalar, cap: nat, vs: seq<int>, acc: Msg, norm: Slot, tail: bytes)
    requires EnvOk(env) && k < |env| && i < |env[k]| && MsgOk(env, k, acc) && DescOk(env, k)
    requires env[k][i].kind == ArrScalars(s, cap) || (env[k][i].kind == PtrScalars(s) && cap == SIZE_MAX)
    requires acc.slots[i] == DefaultSlot(env, k, env[k][i].kind)
    requires vs != [] && |vs| <= cap && forall j | 0 <= j < |vs| :: s.Holds(vs[j])
    requires norm == if env[k][i].kind.ArrScalars? then Arr(NormVals(s, vs)) else Nums(At(0), NormVals(s, vs))
    requires |EncPacked(env[k][i].tag, s, vs)| < U32
    ensures MsgOk(env, k, Msg(acc.slots[i := norm]))
    ensures DecMsg(env, k, EncPacked(env[k][i].tag, s, vs) + tail, acc)
            == DecMsg(env, k, tail, Msg(acc.slots[i := norm]))
  {
    hide Delimited, Counted, EncTag, EncNums, DecPacked, DecMsg;
    var payload := EncNums(s, vs);
    PackedRoundTrip(s, cap, vs, []);
    assert [] + NormVals(s, vs) == NormVals(s, vs);
    CountedRoundTrip(payload, tail);
    OneRecord(env, k, acc, i, WT_STRING, Counted(payload) + tail, norm, tail);
    assert EncPacked(env[k][i].tag, s, vs) + tail == EncTag(WT_STRING, env[k][i].tag) + (Counted(payload) + tail);
  }

  /** One entry of a pointer array is appended. */
  lemma OneItem(env: Env, k: nat, i: nat, item: Msg, done: seq<Msg>, acc: Msg, more: bytes)
    requires EnvOk(env) && k < |env| && i < |env[k]| && MsgOk(env, k, acc) && DescOk(env, k) && env[k][i].kind.PtrMsgs?
    requires acc.slots[i] == Msgs(if done == [] then Null else At(0), done) && |done| < SIZE_MAX
    requires MsgOk(env, env[k][i].kind.sub, item) && |EncMsg(env, env[k][i].kind.sub, item)| < U32
    requires var sub := env[k][i].kind.sub;
             DecMsg(env, sub, EncMsg(env, sub, item), Default(env, sub)) == Some(Norm(env, sub, item))
    ensures var sub := env[k][i].kind.sub;
            var after := Msg(acc.slots[i := Msgs(At(0), done + [Norm(env, sub, item)])]);
            && MsgOk(env, k, after)
            && DecMsg(env, k, EncTag(WT_STRING, env[k][i].tag) + (Counted(EncMsg(env, sub, item)) + more), acc)
               == DecMsg(env, k, more, after)
  {
    hide Delimited, Counted, EncTag, DecMsg, EncMsg, Norm, Default, MsgOk;
    var payload := EncMsg(env, env[k][i].kind.sub, item);
    CountedRoundTrip(payload, more);
    MsgShape(env, k, acc);
    OneRecord(env, k, acc, i, WT_STRING, Counted(payload) + more,
              Msgs(At(0), done + [Norm(env, env[k][i].kind.sub, item)]), more);
  }

  lemma MsgShape(env: Env, k: nat, m: Msg)
    requires k < |env| && MsgOk(env, k, m)
    ensures |m.slots| == |env[k]| && forall i | 0 <= i < |m.slots| :: SlotOk(env, env[k][i].kind, m.slots[i])
  {
  }

  /** A pointer array is sent one record an entry; each appends. */
  lemma {:induction false} ItemsRoundTrip(env: Env, k: nat, i: nat, items: seq<Msg>, done: seq<Msg>, acc: Msg,
                                          tail: bytes)
    requires EnvOk(env) && k < |env| && i < |env[k]| && MsgOk(env, k, acc) && DescOk(env, k) && env[k][i].kind.PtrMsgs?
    requires items != [] && acc.slots[i] == Msgs(if done == [] then Null else At(0), done)
    requires |done| + |items| <= SIZE_MAX
    requires forall j | 0 <= j < |items| :: MsgOk(env, env[k][i].kind.sub, items[j])
    requires forall j | 0 <= j < |items| :: Encodable(env, env[k][i].kind.sub, items[j])
    requires |EncItems(env, env[k][i].tag, env[k][i].kind.sub, items)| < U32
    ensures var after := Msg(acc.slots[i := Msgs(At(0), done + NormItems(env, env[k][i].kind.sub, items))]);
            && MsgOk(env, k, after)
            && DecMsg(env, k, EncItems(env, env[k][i].tag, env[k][i].kind.sub, items) + tail, acc)
               == DecMsg(env, k, tail, after)
    decreases items, 1
  {
    hide Counted, EncTag, DecMsg, EncMsg, Encodable, Norm, Default, MsgOk, EncItems, NormItems;
    var sub := env[k][i].kind.sub;
    var (more, norm) := (EncItems(env, env[k][i].tag, sub, items[1..]) + tail, Norm(env, sub, items[0]));
    FirstItem(env, env[k][i].tag, sub, items, tail);
    MessageRoundTrip(env, sub, items[0]);
    MsgShape(env, k, acc);
    OneItem(env, k, i, items[0], done, acc, more);
    var acc1 := Msg(acc.slots[i := Msgs(At(0), done + [norm])]);
    if |items| > 1 {
      ItemsRoundTrip(env, k, i, items[1..], done + [norm], acc1, tail);
      assert done + [norm] + NormItems(env, sub, items[1..]) == done + NormItems(env, sub, items);
      assert acc1.slots[i := Msgs(At(0), done + NormItems(env, sub, items))]
          == acc.slots[i := Msgs(At(0), done + NormItems(env, sub, items))];
    }
  }

  lemma FirstItem(env: Env, tag: nat, sub: nat, items: seq<Msg>, tail: bytes)
    requires EnvOk(env) && sub < |env| && items != [] && forall j | 0 <= j < |items| :: MsgOk(env, sub, items[j])
    ensures var more := EncItems(env, tag, sub, items[1..]) + tail;
            && EncItems(env, tag, sub, items) + tail
                == EncTag(WT_STRING, tag) + (Counted(EncMsg(env, sub, items[0])) + more)
            && (|items| == 1 ==> more == tail)
    ensures NormItems(env, sub, items) == [Norm(env, sub, items[0])] + NormItems(env, sub, items[1..])
    ensures |items| == 1 ==> NormItems(env, sub, items) == [Norm(env, sub, items[0])]
    ensures |EncMsg(env, sub, items[0])| + |EncItems(env, tag, sub, items[1..])| <= |EncItems(env, tag, sub, items)|
  {
    hide Counted, EncTag, EncMsg, Norm, MsgOk, EncItems, NormItems;
    ItemsUnfolded(env, tag, sub, items);
    var (head, text) := (EncTag(WT_STRING, tag), Counted(EncMsg(env, sub, items[0])));
    var rest := EncItems(env, tag, sub, items[1..]);
    assert (head + text + rest) + tail == head + (text + (rest + tail));
    CountedLonger(EncMsg(env, sub, items[0]));
  }

  lemma ItemsUnfolded(env: Env, tag: nat, sub: nat, items: seq<Msg>)
    requires EnvOk(env) && sub < |env| && items != [] && forall j | 0 <= j < |items| :: MsgOk(env, sub, items[j])
    ensures EncItems(env, tag, sub, items)
            == EncTag(WT_STRING, tag) + Counted(EncMsg(env, sub, items[0])) + EncItems(env, tag, sub, items[1..])
    ensures NormItems(env, sub, items) == [Norm(env, sub, items[0])] + NormItems(env, sub, items[1..])
    ensures |items| == 1 ==> EncItems(env, tag, sub, items[1..]) == [] && NormItems(env, sub, items[1..]) == []
  {
    hide Counted, EncTag, EncMsg, Norm, MsgOk;
  }

  lemma CountedLonger(bs: bytes)
    ensures |bs| <= |Counted(bs)|
  {
  }

  // ---------- the message ----------

  /** acc holds the returned fields before index i and defaults from there on. */
  ghost predicate Halfway(env: Env, k: nat, m: Msg, i: nat, acc: Msg)
    requires EnvOk(env) && k < |env| && MsgOk(env, k, m)
  {
    && MsgOk(env, k, acc)
    && (forall j | 0 <= j < i && j < |m.slots| :: acc.slots[j] == Norm(env, k, m).slots[j])
    && (forall j | i <= j < |m.slots| :: acc.slots[j] == Default(env, k).slots[j])
  }

  lemma {:induction false} FieldsRoundTrip(env: Env, k: nat, m: Msg, i: nat, acc: Msg)
    requires EnvOk(env) && k < |env| && MsgOk(env, k, m) && i <= |m.slots|
    requires Encodable(env, k, m) && Halfway(env, k, m, i, acc)
    requires |EncFrom(env, k, m, i)| < U32
    ensures MsgOk(env, k, Norm(env, k, m))
    ensures DecMsg(env, k, EncFrom(env, k, m, i), acc) == Some(Norm(env, k, m))
    decreases m, 2, |m.slots| - i
  {
    if i == |m.slots| {
      assert acc.slots == Norm(env, k, m).slots;
    } else {
      assert DescOk(env, k);
      var tail := EncFrom(env, k, m, i + 1);
      SlotRoundTrip(env, k, i, m.slots[i], acc, tail);
      var acc1 := Msg(acc.slots[i := NormSlot(env, k, env[k][i].kind, m.slots[i])]);
      FieldsRoundTrip(env, k, m, i + 1, acc1);
    }
  }

  lemma {:induction false} MessageRoundTrip(env: Env, k: nat, m: Msg)
    requires EnvOk(env) && k < |env| && MsgOk(env, k, m) && Encodable(env, k, m) && |EncMsg(env, k, m)| < U32
    ensures DecMsg(env, k, EncMsg(env, k, m), Default(env, k)) == Some(Norm(env, k, m))
    decreases m, 3
  {
    FieldsRoundTrip(env, k, m, 0, Default(env, k));
  }

  /** The round trip: for every descriptor set and every message that encodes to a size_t-sized buffer,
      decoding the bytes into a fresh structure succeeds, uses them all and returns the message. */
  lemma DecodeEncode(env: Env, k: nat, m: Msg)
    requires EnvOk(env) && k < |env| && MsgOk(env, k, m) && Encodable(env, k, m)
    requires |EncMsg(env, k, m)| < U32
    ensures DecMsg(env, k, EncMsg(env, k, m), Default(env, k)) == Some(Norm(env, k, m))
  {
    MessageRoundTrip(env, k, m);
  }
}
