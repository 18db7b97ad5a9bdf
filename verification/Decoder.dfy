/** pb_decode.c: the recursive decoder with dynamic allocation, and pb_release. The structure decoded into is passed
    and returned as a value; the stream and the heap are changed in place. */
module Decoder {
  import opened Prelude
  import opened Varint
  import opened IStreams
  import opened Schema
  import opened Wire
  import opened Ledger
  import opened FieldIters
  import opened Descriptors

  // ---------- numbers ----------

  /** pb_decode_svarint: the zigzag code undone on 64-bit words. */
  method DecodeSVarint(stream: IStream) returns (ok: bool, dest: int)
    requires stream.Valid()
    modifies stream
    ensures stream.Valid() && stream.pos + stream.left == old(stream.pos + stream.left)
    ensures ok <==> Read64(old(stream.Rest())).Some?
    ensures ok ==> var (w, rest) := Read64(old(stream.Rest())).value; dest == UnZigZag(w) && stream.Rest() == rest
  {
    var value;
    ok, value := stream.DecodeVarint();
    if !ok { return false, 0; }
    Read64Bound(old(stream.Rest()));
    if value % 2 == 1 {
      dest := Signed(U64 - 1 - value / 2, U64);  // ~(value >> 1) as int64
    } else {
      dest := value / 2;
    }
  }

  /** pb_dec_varint: the value is cast to the member's width and must survive the cast. */
  method DecVarint(stream: IStream, s: Scalar) returns (ok: bool, v: int)
    requires stream.Valid() && s.Ok() && (s.lt.LVarint? || s.lt.LUVarint? || s.lt.LSVarint?)
    modifies stream
    ensures stream.Valid() && stream.pos + stream.left == old(stream.pos + stream.left)
    ensures ok <==> DecScalar(s, old(stream.Rest())).Some?
    ensures ok ==> DecScalar(s, old(stream.Rest())) == Some((v, stream.Rest()))
  {
    hide Read64;
    var value: int;
    if s.lt.LUVarint? {
      ok, value := stream.DecodeVarint();
      if !ok { return false, 0; }
      Read64Bound(old(stream.Rest()));
      v := value % Modulus(s.size);
    } else {
      if s.lt.LSVarint? {
        ok, value := DecodeSVarint(stream);
        if !ok { return false, 0; }
      } else {
        var w;
        ok, w := stream.DecodeVarint();
        if !ok { return false, 0; }
        value := Signed(w, if s.size == 8 then U64 else U32);
      }
      v := Cast(value, Modulus(s.size));
      CastFits(value, s.size);
    }
    ok := v == value;
  }

  /** Conversion to a signed type of the given width. */
  function Cast(value: int, width: nat): int
    requires width > 0
  {
    Signed(value % width, width)
  }

  lemma CastFits(value: int, size: nat)
    requires size in {1, 2, 4, 8}
    ensures Cast(value, Modulus(size)) == value <==> -(Modulus(size) / 2) <= value < Modulus(size) / 2
  {
    if size == 1 { CastRange(value, 0x100); }
    else if size == 2 { CastRange(value, U16); }
    else if size == 4 { CastRange(value, U32); }
    else { CastRange(value, U64); }
  }

  lemma CastRange(value: int, w: nat)
    requires w > 0 && w % 2 == 0
    ensures Cast(value, w) == value <==> -(w / 2) <= value < w / 2
  {
    if -(w / 2) <= value < 0 { RemainderInRange(value + w, w); RemainderBelowZero(value, w); }
    if 0 <= value < w / 2 { RemainderInRange(value, w); }
  }

  lemma RemainderInRange(x: nat, w: nat)
    requires x < w
    ensures x % w == x
  {
  }

  lemma RemainderBelowZero(x: int, w: nat)
    requires 0 <= x + w < w
    ensures x % w == x + w || x + w == 0
  {
    assert x == -1 * w + (x + w);
  }

  /** The number decoders behind decode_basic_field: pb_dec_bool, pb_dec_varint, pb_decode_fixed32/64. */
  method DecNumber(stream: IStream, s: Scalar) returns (ok: bool, v: int)
    requires stream.Valid() && s.Ok()
    modifies stream
    ensures stream.Valid() && stream.pos + stream.left == old(stream.pos + stream.left)
    ensures ok <==> DecScalar(s, old(stream.Rest())).Some?
    ensures ok ==> DecScalar(s, old(stream.Rest())) == Some((v, stream.Rest()))
  {
    hide Read32, Read64;
    if s.lt.LBool? {
      var w;
      ok, w := stream.DecodeVarint32();
      v := if w != 0 then 1 else 0;
    } else if s.lt.LFixed32? || s.lt.LFixed64? {
      var buf;
      ok, buf := stream.Read(s.size);
      if !ok { return false, 0; }
      v := FromLe(buf);
    } else {
      ok, v := DecVarint(stream, s);
    }
  }

  /** decode_basic_field on a number that stands alone. */
  method DecTypedNumber(stream: IStream, wt: nat, s: Scalar) returns (ok: bool, v: int)
    requires stream.Valid() && s.Ok()
    modifies stream
    ensures stream.Valid() && stream.pos + stream.left == old(stream.pos + stream.left)
    ensures ok <==> DecTyped(s, wt, old(stream.Rest())).Some?
    ensures ok ==> DecTyped(s, wt, old(stream.Rest())) == Some((v, stream.Rest()))
  {
    if wt != WireType(s.lt) { return false, 0; }
    ok, v := DecNumber(stream, s);
  }

  // ---------- allocation ----------

  /** allocate_field, size_t being 32 bits wide. */
  method AllocateField(heap: Heap, a: Addr, dataSize: nat, arraySize: nat) returns (ok: bool, b: Addr)
    requires heap.Valid() && AddrIds(a) <= heap.live && dataSize < U32 && arraySize < U32
    modifies heap
    ensures heap.Valid() && heap.live + AddrIds(a) == old(heap.live) + AddrIds(b)
    ensures if ok then b.At? && heap.refusals == old(heap.refusals) else b == a
    ensures old(heap.refusals) <= heap.refusals
    ensures !ok <==> dataSize == 0 || arraySize == 0 || dataSize * arraySize >= U32
                     || heap.refusals > old(heap.refusals)
  {
    if dataSize == 0 || arraySize == 0 { return false, a; }
    hide Exceeds;
    var limit := U16;
    if dataSize >= limit || arraySize >= limit {
      ExceedsExactly(dataSize, arraySize);
      if Exceeds(dataSize, arraySize) { return false, a; }
    } else {
      SmallProduct(dataSize, arraySize);
    }
    Positive(dataSize, arraySize);
    ok, b := heap.Realloc(a, dataSize * arraySize);
  }

  /** The division that stands for the test whether the product of the sizes wraps. */
  predicate Exceeds(dataSize: nat, arraySize: nat)
    requires arraySize > 0
  {
    (U32 - 1) / arraySize < dataSize
  }

  lemma ExceedsExactly(x: nat, y: nat)
    requires y > 0
    ensures Exceeds(x, y) <==> x * y >= U32
  {
    if Exceeds(x, y) {
      TooLarge(x, y);
    } else {
      Monotone(x, (U32 - 1) / y, y);
    }
  }

  lemma Positive(x: nat, y: nat)
    requires x > 0 && y > 0
    ensures x * y > 0
  {
  }

  lemma TooLarge(x: nat, y: nat)
    requires y > 0 && (U32 - 1) / y < x
    ensures x * y >= U32
  {
    var q, r := (U32 - 1) / y, (U32 - 1) % y;
    assert U32 - 1 == q * y + r && r < y;
    assert x * y >= (q + 1) * y == q * y + y by { Monotone(q + 1, x, y); }
  }

  lemma Monotone(a: nat, b: nat, y: nat)
    requires a <= b
    ensures a * y <= b * y
  {
  }

  lemma SmallProduct(x: nat, y: nat)
    requires 0 < x < U16 && 0 < y < U16
    ensures 0 < x * y < U32
  {
    Monotone(x, U16 - 1, y);
    Positive(x, y);
  }

  /** allocate_field when the product cannot overflow: both sizes are 16 bits wide. */
  method AllocateSmall(heap: Heap, a: Addr, dataSize: nat, arraySize: nat) returns (ok: bool, b: Addr)
    requires heap.Valid() && AddrIds(a) <= heap.live && 0 < dataSize < U16 && 0 < arraySize < U16
    modifies heap
    ensures heap.Valid() && heap.live + AddrIds(a) == old(heap.live) + AddrIds(b)
    ensures AddrIds(b) <= heap.live
    ensures if ok then b.At? && heap.refusals == old(heap.refusals) else b == a && heap.refusals > old(heap.refusals)
  {
    SmallProduct(dataSize, arraySize);
    ok, b := AllocateField(heap, a, dataSize, arraySize);
    assert AddrIds(a) + multiset{} == AddrIds(a) && AddrIds(b) + multiset{} == AddrIds(b);
    Widen(heap.live, AddrIds(a), old(heap.live), AddrIds(b), multiset{});
  }

  /** What one decoding call did: with status ok it did what the wire format says; a failure is a decoding error or an
      allocation refused during the call; before and after count the refusals. */
  ghost predicate Did<T>(ok: bool, expected: Option<T>, actual: T, before: nat, after: nat) {
    && before <= after
    && (ok ==> expected == Some(actual) && after == before)
    && (!ok ==> after > before || expected.None?)
  }

  /** Cursor plus count of a stream: kept by success, never increased by failure. */
  ghost predicate Accounted(ok: bool, end: nat, end': nat) {
    end' <= end && (ok ==> end' == end)
  }

  /** Blocks are neither lost nor shared: live changes exactly as what the structure owns. */
  ghost predicate Balanced(live: multiset<nat>, owned: multiset<nat>, live': multiset<nat>, owned': multiset<nat>) {
    live' + owned == live + owned'
  }

  /** pb_dec_string into an allocated member. */
  method DecString(stream: IStream, heap: Heap, a: Addr, chars: bytes) returns (ok: bool, slot: Slot)
    requires stream.Valid() && heap.Valid() && AddrIds(a) <= heap.live
    requires SlotOk([], PtrString, Str(a, chars))
    modifies stream, heap
    ensures stream.Valid() && heap.Valid() && Accounted(ok, old(stream.pos + stream.left), stream.pos + stream.left)
    ensures SlotOk([], PtrString, slot)
    ensures Balanced(old(heap.live), AddrIds(a), heap.live, SlotIds(slot))
    ensures Did(ok, StringSpec(old(stream.Rest())), (EraseSlot(slot), stream.Rest()), old(heap.refusals), heap.refusals)
  {
    hide Read32;
    slot := Str(a, chars);
    var size;
    ok, size := stream.DecodeVarint32();
    if !ok { return; }
    ReadLength(old(stream.Rest()));
    if size == U32 - 1 { return false, slot; }
    if stream.left < size { return false, slot; }
    var b;
    ok, b := AllocateField(heap, a, size + 1, 1);
    if !ok { return; }
    var dest;
    ok, dest := stream.Read(size);
    slot := Str(b, dest + [0]);
  }

  lemma ReadLength(bs: bytes)
    requires Read32(bs).Some?
    ensures Read32(bs).value.0 < U32
  {
    ShortRefinesLong(bs);
  }

  function StringSpec(bs: bytes): Option<(Slot, bytes)> {
    match Delimited(bs)
    case Some((cs, rest)) => if |cs| == U32 - 1 then None else Some((Str(At(0), cs + [0]), rest))
    case None => None
  }

  // ---------- arrays of numbers ----------

  /** The packed branch of decode_static_field: elements while there is room; bytes left over are an overflow. */
  method DecPackedStatic(stream: IStream, s: Scalar, cap: nat, vals: seq<int>) returns (ok: bool, vs: seq<int>)
    requires stream.Valid() && s.Ok() && cap <= SIZE_MAX && |vals| <= SIZE_MAX
    requires forall i | 0 <= i < |vals| :: s.Holds(vals[i])
    modifies stream
    ensures stream.Valid() && Accounted(ok, old(stream.pos + stream.left), stream.pos + stream.left)
    ensures |vs| <= SIZE_MAX && forall i | 0 <= i < |vs| :: s.Holds(vs[i])
    ensures Did(ok, DecArray(s, cap, WT_STRING, old(stream.Rest()), vals), (vs, stream.Rest()), 0, 0)
  {
    hide Delimited, DecScalar;
    vs := vals;
    var sub;
    ok, sub := stream.MakeSubstream();
    if !ok { return; }
    ghost var payload := sub.Rest();
    var status := true;
    while sub.left > 0 && |vs| < cap
      invariant sub.Valid() && sub.pos + sub.left == stream.pos + |payload|
      invariant |vs| <= SIZE_MAX && forall i | 0 <= i < |vs| :: s.Holds(vs[i])
      invariant DecPacked(s, cap, payload, vals) == DecPacked(s, cap, sub.Rest(), vs)
      modifies sub
      decreases sub.left
    {
      var v;
      ok, v := DecNumber(sub, s);
      if !ok { status := false; break; }
      vs := vs + [v];
    }
    if sub.left != 0 { return false, vs; }
    ok := stream.CloseSubstream(sub);
    ok := status;
  }

  /** The packed branch of decode_pointer_field. */
  method DecPackedPtr(stream: IStream, heap: Heap, s: Scalar, a: Addr, vals: seq<int>) returns (ok: bool, slot: Slot)
    requires stream.Valid() && heap.Valid() && AddrIds(a) <= heap.live
    requires s.Ok() && SlotOk([], PtrScalars(s), Nums(a, vals))
    modifies stream, heap
    ensures stream.Valid() && heap.Valid() && Accounted(ok, old(stream.pos + stream.left), stream.pos + stream.left)
    ensures SlotOk([], PtrScalars(s), slot)
    ensures Balanced(old(heap.live), AddrIds(a), heap.live, SlotIds(slot))
    ensures Did(ok, NumsSpec(s, WT_STRING, old(stream.Rest()), a, vals), (EraseSlot(slot), stream.Rest()),
                old(heap.refusals), heap.refusals)
  {
    hide Delimited, DecScalar, DecPacked, AddrIds;
    slot := Nums(a, vals);
    var sub;
    ok, sub := stream.MakeSubstream();
    if !ok { return; }
    var status, b, vs := DecElements(sub, heap, s, a, vals);
    slot := Nums(b, vs);
    ok := stream.CloseSubstream(sub);
    ok := status;
  }

  /** Its loop: the array grows by guessing how many elements are still to come. */
  method DecElements(sub: IStream, heap: Heap, s: Scalar, a: Addr, vals: seq<int>)
    returns (status: bool, b: Addr, vs: seq<int>)
    requires sub.Valid() && heap.Valid() && AddrIds(a) <= heap.live
    requires s.Ok() && SlotOk([], PtrScalars(s), Nums(a, vals))
    modifies sub, heap
    ensures sub.Valid() && heap.Valid() && sub.pos + sub.left == old(sub.pos + sub.left)
    ensures SlotOk([], PtrScalars(s), Nums(b, vs)) && vals <= vs
    ensures if vs == vals && status then b == a else b == a || b.At?
    ensures status && vs != vals ==> b.At?
    ensures heap.live + AddrIds(a) == old(heap.live) + AddrIds(b)
    ensures Did(status, DecPacked(s, SIZE_MAX, old(sub.Rest()), vals), vs, old(heap.refusals), heap.refusals)
  {
    hide DecScalar, AddrIds;
    ghost var payload := sub.Rest();
    status := true;
    var room := |vals|;
    b, vs := a, vals;
    while sub.left > 0
      invariant sub.Valid() && sub.pos + sub.left == old(sub.pos + sub.left)
      invariant heap.Valid() && AddrIds(b) <= heap.live && heap.refusals == old(heap.refusals)
      invariant heap.live + AddrIds(a) == old(heap.live) + AddrIds(b)
      invariant vals <= vs && |vs| <= room <= SIZE_MAX && forall i | 0 <= i < |vs| :: s.Holds(vs[i])
      invariant if vs == vals then b == a else b.At?
      invariant room == |vals| || b.At?
      invariant DecPacked(s, SIZE_MAX, payload, vals) == DecPacked(s, SIZE_MAX, sub.Rest(), vs)
      decreases sub.left
    {
      if |vs| == SIZE_MAX { return false, b, vs; }
      if |vs| + 1 > room {
        ghost var l1, b1 := heap.live, b;
        var got;
        got, b, room := GrowArray(heap, b, s, sub.left, room);
        Chain(old(heap.live), AddrIds(a), l1, AddrIds(b1), heap.live, AddrIds(b));
        if !got { return false, b, vs; }
      }
      var ok, v := DecNumber(sub, s);
      if !ok { return false, b, vs; }
      vs := vs + [v];
    }
  }

  /** More storage, for as many elements as the bytes left could hold at one each. */
  method GrowArray(heap: Heap, a: Addr, s: Scalar, left: nat, room0: nat) returns (got: bool, b: Addr, room: nat)
    requires heap.Valid() && AddrIds(a) <= heap.live && s.Ok() && left > 0 && room0 < SIZE_MAX
    modifies heap
    ensures heap.Valid() && heap.live + AddrIds(a) == old(heap.live) + AddrIds(b) && AddrIds(b) <= heap.live
    ensures if got then b.At? && heap.refusals == old(heap.refusals) else b == a && heap.refusals > old(heap.refusals)
    ensures room0 < room <= SIZE_MAX
  {
    var remain := (left - 1) / s.size + 1;
    room := room0 + if remain < SIZE_MAX - room0 then remain else 1;
    got, b := AllocateSmall(heap, a, s.size, room);
  }

  lemma Chain(l0: multiset<nat>, x: multiset<nat>, l1: multiset<nat>, y: multiset<nat>, l2: multiset<nat>,
              z: multiset<nat>)
    requires l1 + x == l0 + y && l2 + y == l1 + z
    ensures l2 + x == l0 + z
  {
    forall e ensures (l2 + x)[e] == (l0 + z)[e] {
      assert (l1 + x)[e] == (l0 + y)[e] && (l2 + y)[e] == (l1 + z)[e];
    }
  }

  /** What the wire format says of an allocated array of numbers. */
  ghost function NumsSpec(s: Scalar, wt: nat, bs: bytes, a: Addr, vals: seq<int>): Option<(Slot, bytes)>
    requires s.Ok() && |vals| <= SIZE_MAX && forall i | 0 <= i < |vals| :: s.Holds(vals[i])
  {
    match DecArray(s, SIZE_MAX, wt, bs, vals)
    case Some((vs, rest)) => Some((Nums(if vs == vals then EraseAddr(a) else At(0), vs), rest))
    case None => None
  }

  /** The unpacked branch of decode_pointer_field for numbers: the array grows by one. */
  method DecAppendPtr(stream: IStream, heap: Heap, wt: nat, s: Scalar, a: Addr, vals: seq<int>)
    returns (ok: bool, slot: Slot)
    requires stream.Valid() && heap.Valid() && AddrIds(a) <= heap.live && wt != WT_STRING
    requires s.Ok() && SlotOk([], PtrScalars(s), Nums(a, vals))
    modifies stream, heap
    ensures stream.Valid() && heap.Valid() && Accounted(ok, old(stream.pos + stream.left), stream.pos + stream.left)
    ensures SlotOk([], PtrScalars(s), slot)
    ensures Balanced(old(heap.live), AddrIds(a), heap.live, SlotIds(slot))
    ensures Did(ok, NumsSpec(s, wt, old(stream.Rest()), a, vals), (EraseSlot(slot), stream.Rest()),
                old(heap.refusals), heap.refusals)
  {
    hide DecTyped, AddrIds;
    slot := Nums(a, vals);
    if |vals| == SIZE_MAX { return false, slot; }
    var b, v;
    ok, b := AllocateSmall(heap, a, s.size, |vals| + 1);
    if !ok { return; }
    slot := Nums(b, vals + [0]);
    ok, v := DecTypedNumber(stream, wt, s);
    if ok { slot := Nums(b, vals + [v]); }
  }

  // ---------- messages ----------

  /** pb_dec_submessage: the payload is decoded through a substream, initialised first unless the member is static. */
  method DecSubmessage(env: Env, sub: nat, stream: IStream, heap: Heap, msg: Msg, noinit: bool)
    returns (ok: bool, m: Msg)
    requires EnvOk(env) && Indexable(env) && sub < |env| && MsgOk(env, sub, msg)
    requires stream.Valid() && heap.Valid() && Ids(msg) <= heap.live
    requires !noinit ==> Ids(msg) == multiset{}
    modifies stream, heap
    ensures stream.Valid() && heap.Valid() && Accounted(ok, old(stream.pos + stream.left), stream.pos + stream.left)
    ensures MsgOk(env, sub, m) && MsgOk(env, sub, Erase(msg))
    ensures Balanced(old(heap.live), Ids(msg), heap.live, Ids(m))
    ensures Did(ok, SubSpec(env, sub, old(stream.Rest()), if noinit then Erase(msg) else Default(env, sub)),
                (Erase(m), stream.Rest()), old(heap.refusals), heap.refusals)
    decreases stream.left, 0
  {
    hide Delimited, DecMsg, MsgOk, Erase;
    EraseKeepsOk(env, sub, msg);
    m := msg;
    var payload;
    ok, payload := stream.MakeSubstream();
    if !ok { return; }
    ghost var bs := payload.Rest();
    var status;
    status, m := DecodeInner(env, sub, payload, heap, msg, noinit);
    ok := stream.CloseSubstream(payload);
    ok := status;
  }

  ghost function SubSpec(env: Env, sub: nat, bs: bytes, msg: Msg): Option<(Msg, bytes)>
    requires EnvOk(env) && sub < |env| && MsgOk(env, sub, msg)
  {
    match Delimited(bs)
    case None => None
    case Some((payload, rest)) =>
      match DecMsg(env, sub, payload, msg)
      case Some(m) => Some((m, rest))
      case None => None
  }

  /** The submessage branch of decode_pointer_field: a zeroed entry is appended, then decoded into. */
  method DecAppendMessage(env: Env, sub: nat, wt: nat, stream: IStream, heap: Heap, a: Addr, items: seq<Msg>)
    returns (ok: bool, slot: Slot)
    requires EnvOk(env) && Indexable(env) && sub < |env| && SlotOk(env, PtrMsgs(sub), Msgs(a, items))
    requires stream.Valid() && heap.Valid() && AddrIds(a) + ItemIds(items) <= heap.live
    modifies stream, heap
    ensures stream.Valid() && heap.Valid() && Accounted(ok, old(stream.pos + stream.left), stream.pos + stream.left)
    ensures SlotOk(env, PtrMsgs(sub), slot)
    ensures Balanced(old(heap.live), AddrIds(a) + ItemIds(items), heap.live, SlotIds(slot))
    ensures Did(ok, ItemsSpec(env, sub, wt, old(stream.Rest()), items), (EraseSlot(slot), stream.Rest()),
                old(heap.refusals), heap.refusals)
    decreases stream.left, 1
  {
    hide MsgOk, DecMsg, Delimited, Erase, Default, Ids, AddrIds, ItemIds, SubSpec;
    slot := Msgs(a, items);
    if |items| == SIZE_MAX { return false, slot; }
    var sizeOf: nat :| 0 < sizeOf <= SIZE_MAX;  // of the structure
    var b;
    assert AddrIds(a) <= AddrIds(a) + ItemIds(items);
    ok, b := AllocateSmall(heap, a, sizeOf, |items| + 1);
    Widen(heap.live, AddrIds(a), old(heap.live), AddrIds(b), ItemIds(items));
    if !ok { return; }
    label Grown:
    var zero := Default(env, sub);
    NewItem(env, sub, items, zero);
    slot := Msgs(b, items + [zero]);
    if wt != WT_STRING { return false, slot; }
    var msg;
    ok, msg := DecSubmessage(env, sub, stream, heap, zero, false);
    slot := Msgs(b, items + [msg]);
    ItemIdsAppend(items, msg);
    EraseItems(items, msg);
    Grow(old(heap.live), AddrIds(a), old@Grown(heap.live), AddrIds(b), ItemIds(items), heap.live, Ids(msg));
  }

  lemma Grow(l0: multiset<nat>, a: multiset<nat>, l1: multiset<nat>, b: multiset<nat>, rest: multiset<nat>,
             l2: multiset<nat>, msg: multiset<nat>)
    requires l1 + (a + rest) == l0 + (b + rest) && l2 + multiset{} == l1 + msg
    ensures l2 + (a + rest) == l0 + (b + (rest + msg))
  {
    forall e ensures (l2 + (a + rest))[e] == (l0 + (b + (rest + msg)))[e] {
      assert (l1 + (a + rest))[e] == (l0 + (b + rest))[e] && l2[e] == (l2 + multiset{})[e] == (l1 + msg)[e];
    }
  }

  lemma NewItem(env: Env, sub: nat, items: seq<Msg>, zero: Msg)
    requires EnvOk(env) && sub < |env| && zero == Default(env, sub)
    ensures ItemIds(items + [zero]) == ItemIds(items) && Ids(zero) == multiset{} && Erase(zero) == zero
  {
    ItemIdsAppend(items, zero);
    DefaultOwnsNothing(env, sub, 0);
    EraseDefault(env, sub);
  }

  lemma EraseItems(items: seq<Msg>, msg: Msg)
    ensures Erased(items + [msg]) == Erased(items) + [Erase(msg)]
  {
  }

  function Erased(items: seq<Msg>): seq<Msg> {
    seq(|items|, i requires 0 <= i < |items| => Erase(items[i]))
  }

  ghost function ItemsSpec(env: Env, sub: nat, wt: nat, bs: bytes, items: seq<Msg>): Option<(Slot, bytes)>
    requires EnvOk(env) && sub < |env|
  {
    if wt != WT_STRING || |items| == SIZE_MAX then None
    else match SubSpec(env, sub, bs, Default(env, sub))
      case Some((msg, rest)) => Some((Msgs(At(0), Erased(items) + [msg]), rest))
      case None => None
  }

  /** decode_field: by allocation and repetition of the field. */
  method DecodeField(env: Env, k: nat, kind: Kind, wt: nat, stream: IStream, heap: Heap, slot: Slot)
    returns (ok: bool, s': Slot)
    requires EnvOk(env) && Indexable(env) && KindOk(env, k, kind) && SlotOk(env, kind, slot)
    requires stream.Valid() && heap.Valid() && SlotIds(slot) <= heap.live
    modifies stream, heap
    ensures stream.Valid() && heap.Valid() && Accounted(ok, old(stream.pos + stream.left), stream.pos + stream.left)
    ensures SlotOk(env, kind, s') && SlotOk(env, kind, EraseSlot(slot))
    ensures Balanced(old(heap.live), SlotIds(slot), heap.live, SlotIds(s'))
    ensures Did(ok, DecSlot(env, k, kind, wt, old(stream.Rest()), EraseSlot(slot)), (EraseSlot(s'), stream.Rest()),
                old(heap.refusals), heap.refusals)
    decreases stream.left, 2
  {
    hide MsgOk, DecMsg, Delimited, DecTyped, DecArray, Erase, Ids, ItemIds, Default, AddrIds;
    EraseSlotKeepsOk(env, kind, slot);
    s' := slot;
    match kind
    case Singular(s) =>
      var v;
      ok, v := DecTypedNumber(stream, wt, s);
      if ok { s' := Num(v); }
    case PtrString =>
      if wt != WT_STRING { return false, slot; }
      ok, s' := DecString(stream, heap, slot.addr, slot.chars);
    case OptMsg(sub) =>
      s' := Sub(true, slot.msg);
      if wt != WT_STRING { return false, s'; }
      var msg;
      ok, msg := DecSubmessage(env, sub, stream, heap, slot.msg, true);
      s' := Sub(true, msg);
    case PtrMsgs(sub) =>
      ok, s' := DecAppendMessage(env, sub, wt, stream, heap, slot.addr, slot.items);
    case PtrScalars(s) =>
      if wt == WT_STRING {
        ok, s' := DecPackedPtr(stream, heap, s, slot.addr, slot.vals);
      } else {
        ok, s' := DecAppendPtr(stream, heap, wt, s, slot.addr, slot.vals);
      }
    case ArrScalars(s, cap) =>
      if wt == WT_STRING {
        var vs;
        ok, vs := DecPackedStatic(stream, s, cap, slot.vals);
        s' := Arr(vs);
      } else {
        ok, s' := DecAppendStatic(stream, wt, s, cap, slot.vals);
      }
  }

  /** The unpacked branch of decode_static_field for an array. */
  method DecAppendStatic(stream: IStream, wt: nat, s: Scalar, cap: nat, vals: seq<int>) returns (ok: bool, slot: Slot)
    requires stream.Valid() && s.Ok() && cap <= SIZE_MAX && SlotOk([], ArrScalars(s, cap), Arr(vals)) && wt != WT_STRING
    modifies stream
    ensures stream.Valid() && Accounted(ok, old(stream.pos + stream.left), stream.pos + stream.left)
    ensures SlotOk([], ArrScalars(s, cap), slot) && slot.Arr?
    ensures Did(ok, DecArray(s, cap, wt, old(stream.Rest()), vals), (slot.vals, stream.Rest()), 0, 0)
  {
    hide DecTyped;
    slot := Arr(vals);
    if |vals| >= cap { return false, slot; }
    var v;
    ok, v := DecTypedNumber(stream, wt, s);
    if ok { slot := Arr(vals + [v]); }
  }

  /** pb_decode_inner. */
  method DecodeInner(env: Env, k: nat, stream: IStream, heap: Heap, m0: Msg, noinit: bool) returns (ok: bool, m: Msg)
    requires EnvOk(env) && Indexable(env) && k < |env| && MsgOk(env, k, m0)
    requires stream.Valid() && heap.Valid() && Ids(m0) <= heap.live
    requires !noinit ==> Ids(m0) == multiset{}
    modifies stream, heap
    ensures stream.Valid() && heap.Valid() && Accounted(ok, old(stream.pos + stream.left), stream.pos + stream.left)
    ensures MsgOk(env, k, m) && MsgOk(env, k, Erase(m0))
    ensures Balanced(old(heap.live), Ids(m0), heap.live, Ids(m))
    ensures ok ==> stream.left == 0
    ensures Did(ok, DecMsg(env, k, old(stream.Rest()), if noinit then Erase(m0) else Default(env, k)), Erase(m),
                old(heap.refusals), heap.refusals)
    decreases stream.left, 3
  {
    hide DecMsg, Default, MsgOk, Erase, EraseSlot, SlotOk, DecSlot, DescOk, Bound, PackAll, Offset;
    hide CountRequired, CountSubmsg, Infos, Widths, ReadTag, SkipField, Ids, SlotIds;
    EraseKeepsOk(env, k, m0);
    DescriptorBound(env, k);
    var iter := new FieldIter.Begin(Infos(env[k]), Widths(env[k]));
    m := m0;
    if !noinit { m := Default(env, k); }
    Initial(env, k);
    ghost var first := Erase(m);
    ok := true;
    while stream.left != 0
      invariant stream.Valid() && heap.Valid() && stream.pos + stream.left == old(stream.pos + stream.left)
      invariant fresh(iter) && iter.Valid() && iter.fs == Infos(env[k])
      invariant MsgOk(env, k, m) && MsgOk(env, k, Erase(m)) && MsgOk(env, k, first)
      invariant Balanced(old(heap.live), Ids(m0), heap.live, Ids(m)) && Ids(m) <= heap.live
      invariant heap.refusals == old(heap.refusals)
      invariant DecMsg(env, k, old(stream.Rest()), first) == DecMsg(env, k, stream.Rest(), Erase(m))
      decreases stream.left
    {
      ghost var bs := stream.Rest();
      var wt, tag, eof;
      ok, wt, tag, eof := stream.DecodeTag();
      if !ok {
        if eof { break; }
        BadTag(env, k, bs, Erase(m));
        return;
      }
      if tag == 0 { BadTag(env, k, bs, Erase(m)); return false, m; }
      var found; ghost var advances;
      found, advances := iter.Find(tag);
      FoundField(env, k, tag, found, iter.index);
      ghost var data := stream.Rest();
      if !found {
        ok := stream.Skip(wt);
        SkipTurn(env, k, bs, Erase(m));
        if !ok { return; }
      } else {
        var i, slot := iter.index, Num(0);
        FieldOf(env, k, m, i);
        label Before:
        ok, slot := DecodeField(env, k, env[k][i].kind, wt, stream, heap, m.slots[i]);
        FieldTurn(env, k, bs, m, i, slot);
        Rebalance(old(heap.live), Ids(m0), old@Before(heap.live), m, heap.live, i, slot);
        m := Msg(m.slots[i := slot]);
        if !ok { return; }
      }
    }
    MessageDone(env, k, stream.Rest(), Erase(m));
    ok := true;
  }

  // ---------- the turns of the loop ----------

  lemma Initial(env: Env, k: nat)
    requires EnvOk(env) && k < |env|
    ensures Erase(Default(env, k)) == Default(env, k) && Ids(Default(env, k)) == multiset{}
  {
    EraseDefault(env, k);
    DefaultOwnsNothing(env, k, 0);
  }

  lemma MessageDone(env: Env, k: nat, bs: bytes, m: Msg)
    requires EnvOk(env) && k < |env| && MsgOk(env, k, m) && bs == []
    ensures DecMsg(env, k, bs, m) == Some(m)
  {
  }

  lemma BadTag(env: Env, k: nat, bs: bytes, m: Msg)
    requires EnvOk(env) && k < |env| && MsgOk(env, k, m) && bs != []
    requires ReadTag(bs).Some? ==> ReadTag(bs).value.0 == 0
    ensures DecMsg(env, k, bs, m).None?
  {
  }

  lemma FoundField(env: Env, k: nat, tag: nat, found: bool, i: nat)
    requires EnvOk(env) && Indexable(env) && k < |env| && tag > 0
    requires found ==> i < |env[k]| && Infos(env[k])[i].tag == tag
    requires !found ==> forall j | 0 <= j < |env[k]| :: !Matches(Infos(env[k])[j], tag)
    ensures Find(env[k], tag) == if found then Some(i) else None
  {
    DescriptorBound(env, k);
    assert DescOk(env, k);
    if !found {
      assert forall j | 0 <= j < |env[k]| :: Infos(env[k])[j].tag == env[k][j].tag && env[k][j].tag != tag;
    }
  }

  lemma SkipTurn(env: Env, k: nat, bs: bytes, m: Msg)
    requires EnvOk(env) && k < |env| && MsgOk(env, k, m) && bs != []
    requires ReadTag(bs).Some? && ReadTag(bs).value.0 > 0 && Find(env[k], ReadTag(bs).value.0).None?
    ensures var (_, wt, data) := ReadTag(bs).value;
            DecMsg(env, k, bs, m)
            == match SkipField(data, wt) case Some(rest) => DecMsg(env, k, rest, m) case None => None
  {
    hide ReadTag, SkipField;
  }

  lemma FieldOf(env: Env, k: nat, m: Msg, i: nat)
    requires EnvOk(env) && k < |env| && MsgOk(env, k, m) && i < |env[k]|
    ensures |m.slots| == |env[k]| && KindOk(env, k, env[k][i].kind) && SlotOk(env, env[k][i].kind, m.slots[i])
    ensures SlotIds(m.slots[i]) <= Ids(m)
  {
    assert DescOk(env, k);
    SlotOwned(m, 0, i);
  }

  lemma FieldTurn(env: Env, k: nat, bs: bytes, m: Msg, i: nat, slot: Slot)
    requires EnvOk(env) && k < |env| && MsgOk(env, k, m) && MsgOk(env, k, Erase(m)) && bs != []
             && i < |m.slots| == |env[k]|
    requires ReadTag(bs).Some? && ReadTag(bs).value.0 > 0 && Find(env[k], ReadTag(bs).value.0) == Some(i)
    requires KindOk(env, k, env[k][i].kind) && SlotOk(env, env[k][i].kind, slot)
    requires SlotOk(env, env[k][i].kind, EraseSlot(m.slots[i]))
    ensures var after := Msg(m.slots[i := slot]);
            && MsgOk(env, k, after) && MsgOk(env, k, Erase(after))
            && Erase(after) == Msg(Erase(m).slots[i := EraseSlot(slot)])
    ensures var (_, wt, data) := ReadTag(bs).value;
            match DecSlot(env, k, env[k][i].kind, wt, data, EraseSlot(m.slots[i]))
            case Some((s, rest)) =>
              s == EraseSlot(slot)
              ==> DecMsg(env, k, bs, Erase(m)) == DecMsg(env, k, rest, Erase(Msg(m.slots[i := slot])))
            case None => DecMsg(env, k, bs, Erase(m)).None?
  {
    hide ReadTag, DecSlot, EraseSlot, SlotOk;
    var after := Msg(m.slots[i := slot]);
    EraseKeepsOk(env, k, after);
    EraseUpdate(m, i, slot);
    assert Erase(m).slots[i] == EraseSlot(m.slots[i]);
    assert DescOk(env, k);
  }

  lemma Rebalance(l0: multiset<nat>, own0: multiset<nat>, l1: multiset<nat>, m: Msg, l2: multiset<nat>, i: nat,
                  slot: Slot)
    requires i < |m.slots| && own0 <= l0 && Ids(m) <= l1 && Balanced(l0, own0, l1, Ids(m))
    requires Balanced(l1, SlotIds(m.slots[i]), l2, SlotIds(slot))
    ensures Balanced(l0, own0, l2, Ids(Msg(m.slots[i := slot]))) && Ids(Msg(m.slots[i := slot])) <= l2
  {
    hide SlotIds;
    IdsFromUpdate(m, 0, i, slot);
    Balance(l0, own0, l1, Ids(m), l2, Ids(Msg(m.slots[i := slot])), SlotIds(m.slots[i]), SlotIds(slot));
  }

  lemma Balance(l0: multiset<nat>, a0: multiset<nat>, l1: multiset<nat>, a1: multiset<nat>,
                l2: multiset<nat>, a2: multiset<nat>, s1: multiset<nat>, s2: multiset<nat>)
    requires l1 + a0 == l0 + a1 && l2 + s1 == l1 + s2 && a2 + s1 == a1 + s2 && a1 <= l1
    ensures l2 + a0 == l0 + a2 && a2 <= l2
  {
    forall x ensures (l2 + a0)[x] == (l0 + a2)[x] && a2[x] <= l2[x] {
      assert (l1 + a0)[x] == (l0 + a1)[x] && (l2 + s1)[x] == (l1 + s2)[x] && (a2 + s1)[x] == (a1 + s2)[x];
    }
  }

  // ---------- release ----------

  /** A structure after pb_release: every pointer NULL, every allocated count zero, all else as before. */
  function Freed(m: Msg): (r: Msg)
    ensures |r.slots| == |m.slots|
    decreases m
  {
    Msg(seq(|m.slots|, i requires 0 <= i < |m.slots| => FreedSlot(m.slots[i])))
  }

  function FreedSlot(s: Slot): Slot
    decreases s
  {
    match s
    case Str(_, _) => Str(Null, [])
    case Sub(has, msg) => Sub(has, Freed(msg))
    case Msgs(_, _) => Msgs(Null, [])
    case Nums(_, _) => Nums(Null, [])
    case _ => s
  }

  lemma {:induction false} FreedOwnsNothing(m: Msg, i: nat)
    requires i <= |m.slots|
    ensures IdsFrom(Freed(m), i) == multiset{}
    decreases m, |m.slots| - i
  {
    if i < |m.slots| {
      FreedOwnsNothing(m, i + 1);
      assert Freed(m).slots[i] == FreedSlot(m.slots[i]);
      match m.slots[i]
      case Sub(_, msg) => FreedOwnsNothing(msg, 0); assert SlotIds(FreedSlot(m.slots[i])) == multiset{};
      case _ =>
    }
  }

  /** pb_release: every block the structure owns is freed, and nothing else. Each free is of a live block. */
  method Release(env: Env, k: nat, m: Msg, heap: Heap) returns (r: Msg)
    requires EnvOk(env) && Indexable(env) && k < |env| && MsgOk(env, k, m) && heap.Valid() && Ids(m) <= heap.live
    modifies heap
    ensures heap.Valid() && heap.refusals == old(heap.refusals)
    ensures heap.live + Ids(m) == old(heap.live)
    ensures r == Freed(m)
    decreases m, 1
  {
    hide MsgOk, SlotOk, SlotIds, Ids, IdsFrom, Bound, PackAll, Offset, CountRequired, CountSubmsg, Infos, Widths;
    hide FreedSlot, DescOk;
    DescriptorBound(env, k);
    var iter := new FieldIter.Begin(Infos(env[k]), Widths(env[k]));
    SlotCount(env, k, m);
    r := m;
    if iter.count == 0 { assert r == Freed(m); return; }
    var more := true;
    ghost var n := 0;
    while more
      invariant fresh(iter) && iter.Valid() && iter.fs == Infos(env[k])
      invariant n == (if more then iter.index else |m.slots|) && n <= |m.slots| == |r.slots|
      invariant heap.Valid() && heap.refusals == old(heap.refusals)
      invariant heap.live + Ids(m) == old(heap.live) + IdsFrom(m, n) && IdsFrom(m, n) <= heap.live
      invariant forall j | 0 <= j < |m.slots| :: r.slots[j] == if j < n then FreedSlot(m.slots[j]) else m.slots[j]
      decreases |m.slots| - n
    {
      var i := iter.index;
      FieldOf(env, k, m, i);
      NextIds(m, i);
      label Before:
      var s := ReleaseField(env, k, env[k][i].kind, m.slots[i], heap);
      Drop(old(heap.live), Ids(m), old@Before(heap.live), SlotIds(m.slots[i]), IdsFrom(m, i + 1), heap.live);
      r := Msg(r.slots[i := s]);
      n := i + 1;
      more := iter.Next();
    }
    assert r.slots == Freed(m).slots;
  }

  lemma SlotCount(env: Env, k: nat, m: Msg)
    requires k < |env| && MsgOk(env, k, m)
    ensures |m.slots| == |env[k]| && IdsFrom(m, |m.slots|) == multiset{} && IdsFrom(m, 0) == Ids(m)
  {
  }

  lemma NextIds(m: Msg, i: nat)
    requires i < |m.slots|
    ensures IdsFrom(m, i) == SlotIds(m.slots[i]) + IdsFrom(m, i + 1)
  {
  }

  lemma Drop(l0: multiset<nat>, own: multiset<nat>, l1: multiset<nat>, s: multiset<nat>, rest: multiset<nat>,
             l2: multiset<nat>)
    requires l1 + own == l0 + (s + rest) && s + rest <= l1 && l2 + s == l1
    ensures l2 + own == l0 + rest && rest <= l2
  {
    forall x ensures (l2 + own)[x] == (l0 + rest)[x] && rest[x] <= l2[x] {
      assert (l1 + own)[x] == (l0 + (s + rest))[x] && (l2 + s)[x] == l1[x];
    }
  }

  /** pb_release_single_field: first what hangs below, then the block itself. */
  method ReleaseField(env: Env, k: nat, kind: Kind, slot: Slot, heap: Heap) returns (r: Slot)
    requires EnvOk(env) && Indexable(env) && KindOk(env, k, kind) && SlotOk(env, kind, slot)
    requires heap.Valid() && SlotIds(slot) <= heap.live
    modifies heap
    ensures heap.Valid() && heap.refusals == old(heap.refusals)
    ensures heap.live + SlotIds(slot) == old(heap.live)
    ensures r == FreedSlot(slot)
    decreases slot, 0
  {
    hide MsgOk, Ids, Freed;
    match slot
    case Sub(has, msg) =>
      var below := Release(env, kind.sub, msg, heap);
      r := Sub(has, below);
    case Msgs(a, items) =>
      ReleaseItems(env, kind.sub, items, heap, AddrIds(a));
      heap.Free(a);
      r := Msgs(Null, []);
    case Str(a, _) =>
      heap.Free(a);
      r := Str(Null, []);
    case Nums(a, _) =>
      heap.Free(a);
      r := Nums(Null, []);
    case _ =>
      r := slot;
  }

  /** The loop over the entries of a submessage array. */
  method ReleaseItems(env: Env, sub: nat, items: seq<Msg>, heap: Heap, ghost kept: multiset<nat>)
    requires EnvOk(env) && Indexable(env) && sub < |env| && forall i | 0 <= i < |items| :: MsgOk(env, sub, items[i])
    requires heap.Valid() && kept + ItemIds(items) <= heap.live
    modifies heap
    ensures heap.Valid() && heap.refusals == old(heap.refusals)
    ensures heap.live + ItemIds(items) == old(heap.live) && kept <= heap.live
    decreases items, 0
  {
    hide MsgOk, Ids, AddrIds, ItemIds;
    var count := |items|;
    NoneLeft(items);
    while count > 0
      invariant 0 <= count <= |items| && heap.Valid() && heap.refusals == old(heap.refusals)
      invariant heap.live + ItemIds(items) == old(heap.live) + ItemIds(items[|items| - count..])
      invariant kept + ItemIds(items[|items| - count..]) <= heap.live
    {
      var i := |items| - count;
      NextItemIds(items, i);
      label Before:
      var emptied := Release(env, sub, items[i], heap);
      Drop(old(heap.live), ItemIds(items), old@Before(heap.live), Ids(items[i]), ItemIds(items[i + 1..]), heap.live);
      Keep(kept, Ids(items[i]), ItemIds(items[i + 1..]), old@Before(heap.live), heap.live);
      count := count - 1;
    }
  }

  lemma NoneLeft(items: seq<Msg>)
    ensures items[0..] == items && ItemIds(items[|items|..]) == multiset{}
  {
  }

  lemma NextItemIds(items: seq<Msg>, i: nat)
    requires i < |items|
    ensures ItemIds(items[i..]) == Ids(items[i]) + ItemIds(items[i + 1..])
  {
    assert items[i..][1..] == items[i + 1..];
  }

  lemma Keep(kept: multiset<nat>, s: multiset<nat>, rest: multiset<nat>, l1: multiset<nat>, l2: multiset<nat>)
    requires kept + (s + rest) <= l1 && l2 + s == l1
    ensures kept + rest <= l2
  {
    forall x ensures (kept + rest)[x] <= l2[x] {
      assert (kept + (s + rest))[x] <= l1[x] && (l2 + s)[x] == l1[x];
    }
  }

  // ---------- the entry points ----------

  /** pb_decode. It succeeds exactly on what the wire format accepts unless an allocation is refused; on success the
      structure owns exactly the blocks the call allocated, on failure none is left and every pointer is NULL. */
  method Decode(env: Env, k: nat, stream: IStream, heap: Heap) returns (ok: bool, m: Msg)
    requires EnvOk(env) && Indexable(env) && k < |env| && stream.Valid() && heap.Valid()
    modifies stream, heap
    ensures stream.Valid() && heap.Valid() && MsgOk(env, k, Default(env, k))
    ensures Did(ok, DecMsg(env, k, old(stream.Rest()), Default(env, k)), Erase(m), old(heap.refusals), heap.refusals)
    ensures ok ==> stream.left == 0 && MsgOk(env, k, m)
    ensures heap.live == old(heap.live) + Ids(m)
    ensures !ok ==> Ids(m) == multiset{} && exists was: Msg :: m == Freed(was)
  {
    hide MsgOk, DecMsg, Erase, Default, Freed;
    Initial(env, k);
    ok, m := DecodeInner(env, k, stream, heap, Default(env, k), false);
    assert heap.live == old(heap.live) + Ids(m);
    if !ok {
      ghost var was := m;
      m := Release(env, k, m, heap);
      FreedOwnsNothing(was, 0);
      Cancel(heap.live, old(heap.live), Ids(was));
    }
  }

  /** pb_decode_ex with PB_DECODE_NOINIT: decoding into a structure that already holds a message. On failure that
      message's own blocks are freed as well. */
  method DecodeNoInit(env: Env, k: nat, stream: IStream, heap: Heap, m0: Msg) returns (ok: bool, m: Msg)
    requires EnvOk(env) && Indexable(env) && k < |env| && MsgOk(env, k, m0)
    requires stream.Valid() && heap.Valid() && Ids(m0) <= heap.live
    modifies stream, heap
    ensures stream.Valid() && heap.Valid() && MsgOk(env, k, Erase(m0))
    ensures Did(ok, DecMsg(env, k, old(stream.Rest()), Erase(m0)), Erase(m), old(heap.refusals), heap.refusals)
    ensures ok ==> stream.left == 0 && MsgOk(env, k, m)
    ensures Balanced(old(heap.live), Ids(m0), heap.live, Ids(m))
    ensures !ok ==> Ids(m) == multiset{} && exists was: Msg :: m == Freed(was)
  {
    hide MsgOk, DecMsg, Erase, Default, Freed, Ids;
    ok, m := DecodeInner(env, k, stream, heap, m0, true);
    Owned(old(heap.live), Ids(m0), heap.live, Ids(m));
    if !ok {
      ghost var was, l1 := m, heap.live;
      m := Release(env, k, m, heap);
      FreedOwnsNothing(was, 0);
      NothingOwned(m);
      Chain(old(heap.live), Ids(m0), l1, Ids(was), heap.live, multiset{});
    }
  }

  lemma NothingOwned(m: Msg)
    requires IdsFrom(m, 0) == multiset{}
    ensures Ids(m) == multiset{}
  {
  }

  lemma Owned(l0: multiset<nat>, own0: multiset<nat>, l1: multiset<nat>, own1: multiset<nat>)
    requires own0 <= l0 && Balanced(l0, own0, l1, own1)
    ensures own1 <= l1
  {
    forall x ensures own1[x] <= l1[x] { assert (l1 + own0)[x] == (l0 + own1)[x]; }
  }

  /** Decoding and then releasing leaves the heap as it was, on every input. */
  method DecodeAndRelease(env: Env, k: nat, data: bytes, heap: Heap) returns (ok: bool, m: Msg)
    requires EnvOk(env) && Indexable(env) && k < |env| && heap.Valid()
    modifies heap
    ensures heap.Valid() && heap.live == old(heap.live) && Ids(m) == multiset{}
  {
    var stream := new IStream.FromBuffer(data);
    ok, m := Decode(env, k, stream, heap);
    if ok {
      ghost var was := m;
      m := Release(env, k, m, heap);
      FreedOwnsNothing(was, 0);
      Cancel(heap.live, old(heap.live), Ids(was));
    }
  }
}
