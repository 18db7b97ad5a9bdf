/** pb_encode.c: the recursive encoder over a stream that writes or only counts. */
module Encoder {
  import opened Prelude
  import opened Varint
  import opened IStreams
  import opened Pieces
  import opened OStreams
  import opened Schema
  import opened Wire
  import opened Layout
  import opened FieldIters
  import opened Descriptors

  /** pb_encode_svarint: zigzag by shifting and complementing 64-bit words. */
  method EncodeSVarint(stream: OStream, value: int) returns (ok: bool)
    requires stream.Valid() && -U63 <= value < U63
    modifies stream, stream.buf
    ensures Emits(old(stream.Now()), stream.Now(), ok, [Raw(Minimal(ZigZag(value)))])
  {
    ZigZagged(value);
    hide ZigZag, ToU64, Minimal;
    var zigzagged;
    if value < 0 {
      zigzagged := U64 - 1 - ToU64(value) % U63 * 2 % U64;
    } else {
      zigzagged := ToU64(value) * 2 % U64;
    }
    ok := stream.EncodeVarint(zigzagged);
  }

  /** The two branches of pb_encode_svarint on 64-bit words. */
  lemma ZigZagged(value: int)
    requires -U63 <= value < U63
    ensures value < 0 ==> U64 - 1 - ToU64(value) % U63 * 2 % U64 == ZigZag(value)
    ensures value >= 0 ==> ToU64(value) * 2 % U64 == ZigZag(value)
  {
  }

  /** pb_enc_varint, for unsigned, signed and zigzag members; bool array elements are read as int8. */
  method EncVarint(stream: OStream, s: Scalar, v: int) returns (ok: bool)
    requires stream.Valid() && s.Ok() && s.Holds(v) && !s.lt.LFixed32? && !s.lt.LFixed64?
    modifies stream, stream.buf
    ensures Emits(old(stream.Now()), stream.Now(), ok, [Raw(EncElem(s, v))])
  {
    hide Emits, Minimal;
    if s.lt.LUVarint? {
      ok := stream.EncodeVarint(v);
    } else {
      var value := if s.lt.LBool? then Signed(v, 0x100) else v;
      if s.lt.LSVarint? {
        ok := EncodeSVarint(stream, value);
      } else {
        ok := stream.EncodeVarint(ToU64(value));
      }
    }
  }

  /** pb_enc_fixed on a little-endian machine: the member's bytes as they lie in memory. */
  method EncFixed(stream: OStream, s: Scalar, v: int) returns (ok: bool)
    requires stream.Valid() && s.Ok() && s.Holds(v) && (s.lt.LFixed32? || s.lt.LFixed64?)
    modifies stream, stream.buf
    ensures Emits(old(stream.Now()), stream.Now(), ok, [Raw(EncScalar(s, v))])
  {
    hide Emits;
    if s.size == 4 {
      ok := stream.WriteAll(Le(4, v));
    } else {
      ok := stream.WriteAll(Le(8, v));
    }
  }

  /** pb_encode_tag. */
  method EncodeTag(stream: OStream, wt: nat, tag: nat) returns (ok: bool)
    requires stream.Valid() && wt < 8 && tag < U32
    modifies stream, stream.buf
    ensures Emits(old(stream.Now()), stream.Now(), ok, [Raw(EncTag(wt, tag))])
  {
    ok := stream.EncodeVarint(tag * 8 + wt);
  }

  /** pb_encode_string. */
  method EncodeString(stream: OStream, buffer: bytes) returns (ok: bool)
    requires stream.Valid() && |buffer| < U32
    modifies stream, stream.buf
    ensures Emits(old(stream.Now()), stream.Now(), ok, LayString(buffer))
  {
    hide Emits, Minimal;
    ghost var a, n, x := stream.Now(), [Raw(Minimal(|buffer|))], [Raw(buffer)];
    assert LayString(buffer) == n + x;
    ok := stream.EncodeVarint(|buffer|);
    ghost var b := stream.Now();
    if !ok { EmitsFails(a, b, n, x); return; }
    Ready(a, b, n);
    ok := stream.WriteAll(buffer);
    EmitsThen(a, b, stream.Now(), n, ok, x);
  }

  lemma Ready(a: Out, b: Out, ps: seq<Piece>)
    requires a.Ok() && Emits(a, b, true, ps)
    ensures b.Ok() && b.writing == a.writing
  {
  }

  /** pb_enc_string on an allocated string: the length is found by scanning for the terminator. */
  method EncString(stream: OStream, str: bytes) returns (ok: bool)
    requires stream.Valid() && 0 in str && |str| <= U32
    modifies stream, stream.buf
    ensures Emits(old(stream.Now()), stream.Now(), ok, LayString(UpToNul(str)))
  {
    var size := StringLength(str);
    ok := EncodeString(stream, str[..size]);
  }

  /** The loop that stands in for strnlen. */
  method StringLength(str: bytes) returns (size: nat)
    requires 0 in str
    ensures size < |str| && str[..size] == UpToNul(str)
  {
    size := 0;
    while str[size] != 0
      invariant 0 <= size < |str| && 0 in str[size..]
      invariant UpToNul(str) == str[..size] + UpToNul(str[size..])
      decreases |str| - size
    {
      assert str[size..][1..] == str[size + 1..];
      size := size + 1;
    }
  }

  /** pb_encode_submessage: measured by a sizing stream, then written through a substream of exactly that size. The
      check "submsg size changed" fires exactly when length and payload pass the checks before and the substream,
      refused a write, has stopped at another count; the payload then has 2^32 bytes or more. */
  method EncodeSubmessage(env: Env, sub: nat, msg: Msg, stream: OStream) returns (ok: bool, ghost changed: bool)
    requires EnvOk(env) && Indexable(env) && sub < |env| && MsgOk(env, sub, msg)
    requires stream.Valid()
    modifies stream, stream.buf
    ensures Emits(old(stream.Now()), stream.Now(), ok, LaySub(env, sub, msg))
    ensures changed <==> ChangesAt(old(stream.Now()), LayMsg(env, sub, msg))
    ensures changed ==> !ok && |Flat(LayMsg(env, sub, msg))| >= U32
    decreases msg, 4
  {
    hide Emits, MsgOk, LayMsg, Minimal, Flat, Whole, Fates, FateOf, Reached, SizeChanges;
    ghost var payload := LayMsg(env, sub, msg);
    ghost var a := stream.Now();
    var sizing := new OStream.Sizing();
    ghost var s0 := sizing.Now();
    changed := false;
    ok := EncodeFields(env, sub, msg, sizing);
    Sized(s0, sizing.Now(), ok, payload);
    if !ok { EmitsStop(a); NotWhole(a, payload); return; }
    var size := sizing.written;
    ghost var n, x := [Raw(Minimal(size))], [Nested(payload)];
    assert LaySub(env, sub, msg) == n + x;
    ok := stream.EncodeVarint(size);
    ghost var b := stream.Now();
    HeaderWritten(a, b, ok, payload);
    if !ok { EmitsFails(a, b, n, x); return; }
    Ready(a, b, n);
    if stream.buf == null {
      ok := stream.Write([], size);
      SubmessageCounted(b, stream.Now(), payload);
      EmitsThen(a, b, stream.Now(), n, true, x);
      return;
    }
    if (stream.written + size) % U32 > stream.maxSize {
      GuardRefuses(b, payload);
      EmitsThen(a, b, b, n, false, x);
      return false, changed;
    }
    var substream := new OStream.Sub(stream.buf, stream.pos, stream.end, size);
    ghost var u := substream.Now();
    var status := EncodeFields(env, sub, msg, substream);
    ghost var v := substream.Now();
    if substream.over {
      stream.over := true;
    } else {
      stream.written := (stream.written + substream.written) % U32;
      stream.pos := substream.pos;
    }
    GuardPassed(b, u, v, status, payload);
    StopsElsewhere(b, u, v, status, payload);
    SubmessageDone(b, u, v, stream.Now(), status, payload);
    EmitsThen(a, b, stream.Now(), n, status, x);
    if substream.over { return false, changed; }
    if substream.written != size {
      changed := true;
      return false, changed;
    }
    ok := status;
  }

  /** The exit is taken from this stream for this payload. */
  ghost predicate ChangesAt(a: Out, ps: seq<Piece>) {
    var n := |Minimal(|Flat(ps)| % U32)|;
    && a.writing && a.written + n <= a.maxSize && n <= a.Room()
    && SizeChanges(ps, a.written + n, a.Room() - n, a.maxSize)
  }

  lemma NotWhole(a: Out, ps: seq<Piece>)
    requires !Whole(ps)
    ensures !ChangesAt(a, ps)
  {
  }

  lemma HeaderWritten(a: Out, b: Out, ok: bool, ps: seq<Piece>)
    requires a.Ok() && Emits(a, b, ok, [Raw(Minimal(|Flat(ps)| % U32))])
    ensures ChangesAt(a, ps) <==> ok && a.writing && SizeChanges(ps, b.written, b.Room(), a.maxSize)
  {
    hide SizeChanges, Minimal;
    One(Raw(Minimal(|Flat(ps)| % U32)));
    PieceBytes(Raw(Minimal(|Flat(ps)| % U32)));
  }

  /** Behind the guard the count of the substream is compared with the size. */
  lemma StopsElsewhere(a: Out, u: Out, v: Out, status: bool, ps: seq<Piece>)
    requires a.Ok() && a.writing && u.Ok() && Whole(ps) && (a.written + |Flat(ps)| % U32) % U32 <= a.maxSize
    requires u == a.(maxSize := |Flat(ps)| % U32, written := 0) && Emits(u, v, status, ps)
    ensures SizeChanges(ps, a.written, a.Room(), a.maxSize) <==> !v.over && v.written != |Flat(ps)| % U32
    ensures SizeChanges(ps, a.written, a.Room(), a.maxSize) ==> |Flat(ps)| >= U32 && !status
  {
    hide Flat, Whole, Fates, Reached;
    FitsExactly(ps, 0, u.Room(), u.maxSize);
    if |Flat(ps)| < U32 { NeverFull(ps, 0, u.Room(), u.maxSize); }
  }

  lemma Sized(a: Out, b: Out, ok: bool, ps: seq<Piece>)
    requires a.Ok() && !a.writing && a.written == 0 && Emits(a, b, ok, ps)
    ensures (ok <==> Whole(ps)) && (ok ==> b.written == |Flat(ps)| % U32)
  {
  }

  lemma SubmessageCounted(a: Out, b: Out, ps: seq<Piece>)
    requires a.Ok() && !a.writing && Whole(ps) && b == a.(written := (a.written + |Flat(ps)| % U32) % U32)
    ensures Emits(a, b, true, [Nested(ps)])
  {
    One(Nested(ps)); PieceBytes(Nested(ps));
    hide Flat, Whole, FlatPiece;
    SumOfRemainders(0, |Flat(ps)|, a.written);
  }

  lemma GuardRefuses(a: Out, ps: seq<Piece>)
    requires a.Ok() && a.writing && (a.written + |Flat(ps)| % U32) % U32 > a.maxSize
    ensures Emits(a, a, false, [Nested(ps)]) && !SizeChanges(ps, a.written, a.Room(), a.maxSize)
  {
    One(Nested(ps));
  }

  /** Behind the guard, a payload below 2^32 is written whole or leaves the memory. */
  lemma GuardPassed(a: Out, u: Out, v: Out, status: bool, ps: seq<Piece>)
    requires a.Ok() && a.writing && u.Ok() && Whole(ps) && (a.written + |Flat(ps)| % U32) % U32 <= a.maxSize
    requires u == a.(maxSize := |Flat(ps)| % U32, written := 0) && Emits(u, v, status, ps)
    ensures status ==> v.written == |Flat(ps)| == |Flat(ps)| % U32
    ensures status || v.over || |Flat(ps)| >= U32
    ensures status ==> !v.over
  {
    hide Flat, Whole, Fates;
    FitsExactly(ps, 0, u.Room(), u.maxSize);
    if |Flat(ps)| < U32 {
      NeverFull(ps, 0, u.Room(), u.maxSize);
    }
  }

  lemma SubmessageDone(a: Out, u: Out, v: Out, b: Out, status: bool, ps: seq<Piece>)
    requires a.Ok() && a.writing && u.Ok() && Whole(ps) && (a.written + |Flat(ps)| % U32) % U32 <= a.maxSize
    requires u == a.(maxSize := |Flat(ps)| % U32, written := 0) && Emits(u, v, status, ps)
    requires status ==> v.written == |Flat(ps)| && !v.over
    requires b == if v.over then a.(mem := v.mem, over := true)
                  else a.(mem := v.mem, pos := v.pos, written := (a.written + v.written) % U32)
    ensures Emits(a, b, status, [Nested(ps)])
  {
    One(Nested(ps)); PieceBytes(Nested(ps));
    hide Flat, Whole, FlatPiece;
    PieceFits(Nested(ps), a.written, a.Room(), a.maxSize);
    assert FateOf(Nested(ps), a.written, a.Room(), a.maxSize) == Fates(ps, 0, a.Room(), |Flat(ps)| % U32);
    hide Fates, FateOf;
    if status {
      assert (a.written + |Flat(ps)|) % U32 == a.written + |Flat(ps)|;
    }
  }

  /** encode_array for numbers: always packed, the payload measured first. */
  method EncodePacked(stream: OStream, tag: nat, s: Scalar, vals: seq<int>) returns (ok: bool)
    requires s.Ok() && vals != [] && |vals| <= SIZE_MAX && forall i | 0 <= i < |vals| :: s.Holds(vals[i])
    requires stream.Valid() && tag < U16
    modifies stream, stream.buf
    ensures Emits(old(stream.Now()), stream.Now(), ok, LayPacked(tag, s, vals))
  {
    hide Emits, EncTag, Minimal, EncElem, EncNums, LayNums, Flat, Whole;
    NumsLayout(s, vals);
    ghost var a, t, x := stream.Now(), [Raw(EncTag(WT_STRING, tag))], LayNums(s, vals);
    ghost var n := [Raw(Minimal(|EncNums(s, vals)|))];
    assert LayPacked(tag, s, vals) == t + n + x == t + (n + x);
    ok := EncodeTag(stream, WT_STRING, tag);
    ghost var b := stream.Now();
    if !ok { EmitsFails(a, b, t, n + x); return; }
    Ready(a, b, t);
    var size := PackedSize(s, vals);
    ok := stream.EncodeVarint(size);
    ghost var c := stream.Now();
    EmitsThen(a, b, c, t, ok, n);
    if !ok { EmitsFails(a, c, t + n, x); return; }
    Ready(b, c, n);
    if stream.buf == null {
      ok := stream.Write([], size);
      CountedOnly(c, x, x);
    } else {
      ok := EncodeElements(stream, s, vals);
    }
    EmitsThen(a, c, stream.Now(), t + n, ok, x);
  }

  /** The size of a packed payload: a product for fixed-width numbers, else summed by a sizing stream. */
  method PackedSize(s: Scalar, vals: seq<int>) returns (size: nat)
    requires s.Ok() && |vals| <= SIZE_MAX && forall i | 0 <= i < |vals| :: s.Holds(vals[i])
    ensures size == |EncNums(s, vals)|
  {
    FixedSize(s, vals);
    if s.lt.LFixed32? { return 4 * |vals|; }
    if s.lt.LFixed64? { return 8 * |vals|; }
    NumsLayout(s, vals);
    hide EncElem, EncNums, Emits, LayNums, Whole, Flat;
    var sizing := new OStream.Sizing();
    var i := 0;
    EmptyNums(s, vals);
    while i < |vals|
      invariant 0 <= i <= |vals| && fresh(sizing) && sizing.Valid() && sizing.buf == null
      invariant sizing.written + |EncNums(s, vals[i..])| == |EncNums(s, vals)|
    {
      NextNum(s, vals, i);
      ghost var a := sizing.Now();
      var ok := EncVarint(sizing, s, vals[i]);
      OneCounted(a, sizing.Now(), ok, EncElem(s, vals[i]));
      i := i + 1;
    }
    EmptyNums(s, vals);
    size := sizing.written;
  }

  lemma OneCounted(a: Out, b: Out, ok: bool, bs: bytes)
    requires a.Ok() && !a.writing && Emits(a, b, ok, [Raw(bs)]) && a.written + |bs| < U32
    ensures b.Ok() && b.written == a.written + |bs|
  {
    One(Raw(bs)); PieceBytes(Raw(bs));
  }

  lemma {:induction false} FixedSize(s: Scalar, vals: seq<int>)
    requires s.Ok() && forall i | 0 <= i < |vals| :: s.Holds(vals[i])
    ensures s.lt.LFixed32? ==> |EncNums(s, vals)| == 4 * |vals|
    ensures s.lt.LFixed64? ==> |EncNums(s, vals)| == 8 * |vals|
  {
    if vals != [] { FixedSize(s, vals[1..]); }
  }

  lemma NextNum(s: Scalar, vals: seq<int>, i: nat)
    requires s.Ok() && i < |vals| && forall i | 0 <= i < |vals| :: s.Holds(vals[i])
    ensures EncNums(s, vals[i..]) == EncElem(s, vals[i]) + EncNums(s, vals[i + 1..])
  {
    assert vals[i..][1..] == vals[i + 1..];
  }

  lemma EmptyNums(s: Scalar, vals: seq<int>)
    requires s.Ok() && forall i | 0 <= i < |vals| :: s.Holds(vals[i])
    ensures EncNums(s, vals[|vals|..]) == [] && vals[0..] == vals
  {
  }

  lemma NextPiece(s: Scalar, vals: seq<int>, i: nat)
    requires s.Ok() && i < |vals| && forall i | 0 <= i < |vals| :: s.Holds(vals[i])
    ensures LayNums(s, vals[i..]) == [Raw(EncElem(s, vals[i]))] + LayNums(s, vals[i + 1..])
  {
    assert vals[i..][1..] == vals[i + 1..];
  }

  lemma NoPieces(s: Scalar, vals: seq<int>)
    requires s.Ok() && forall i | 0 <= i < |vals| :: s.Holds(vals[i])
    ensures LayNums(s, vals[|vals|..]) == [] && vals[0..] == vals
  {
  }

  /** The element loop of encode_array. */
  method EncodeElements(stream: OStream, s: Scalar, vals: seq<int>) returns (ok: bool)
    requires s.Ok() && forall i | 0 <= i < |vals| :: s.Holds(vals[i])
    requires stream.Valid()
    modifies stream, stream.buf
    ensures Emits(old(stream.Now()), stream.Now(), ok, LayNums(s, vals))
  {
    hide Emits, EncScalar, LayNums;
    ghost var a := stream.Now();
    ghost var done: seq<Piece> := [];
    EmitsNothing(a); NoPieces(s, vals);
    var i := 0;
    while i < |vals|
      invariant 0 <= i <= |vals| && stream.Valid()
      invariant LayNums(s, vals) == done + LayNums(s, vals[i..])
      invariant Emits(a, stream.Now(), true, done)
    {
      ghost var b := stream.Now();
      ghost var x, rest := [Raw(EncElem(s, vals[i]))], LayNums(s, vals[i + 1..]);
      NextPiece(s, vals, i);
      if s.lt.LFixed32? || s.lt.LFixed64? {
        ok := EncFixed(stream, s, vals[i]);
      } else {
        ok := EncVarint(stream, s, vals[i]);
      }
      EmitsThen(a, b, stream.Now(), done, ok, x);
      assert done + (x + rest) == done + x + rest;
      if !ok { EmitsFails(a, stream.Now(), done + x, rest); return; }
      Ready(b, stream.Now(), x);
      done := done + x;
      i := i + 1;
    }
    NoPieces(s, vals);
    assert done == LayNums(s, vals);
    ok := true;
  }

  /** encode_basic_field on a number. */
  method EncodeNumber(stream: OStream, tag: nat, s: Scalar, v: int) returns (ok: bool)
    requires s.Ok() && s.Holds(v) && tag < U16
    requires stream.Valid()
    modifies stream, stream.buf
    ensures Emits(old(stream.Now()), stream.Now(), ok, LayNumber(tag, s, v))
  {
    hide Emits, EncTag, Minimal;
    ghost var a, t, x := stream.Now(), [Raw(EncTag(WireType(s.lt), tag))], [Raw(EncScalar(s, v))];
    assert LayNumber(tag, s, v) == t + x;
    ok := EncodeTag(stream, WireType(s.lt), tag);
    ghost var b := stream.Now();
    if !ok { EmitsFails(a, b, t, x); return; }
    Ready(a, b, t);
    if s.lt.LBool? {
      ok := stream.EncodeVarint(if v != 0 then 1 else 0);
    } else if s.lt.LFixed32? || s.lt.LFixed64? {
      ok := EncFixed(stream, s, v);
    } else {
      ok := EncVarint(stream, s, v);
    }
    EmitsThen(a, b, stream.Now(), t, ok, x);
  }

  /** encode_basic_field on a submessage. */
  method EncodeMessageField(env: Env, tag: nat, sub: nat, msg: Msg, stream: OStream) returns (ok: bool)
    requires EnvOk(env) && Indexable(env) && sub < |env| && MsgOk(env, sub, msg) && tag < U16
    requires stream.Valid()
    modifies stream, stream.buf
    ensures Emits(old(stream.Now()), stream.Now(), ok, [Raw(EncTag(WT_STRING, tag))] + LaySub(env, sub, msg))
    decreases msg, 5
  {
    hide Emits, EncTag, LaySub, MsgOk;
    ghost var a, t, x := stream.Now(), [Raw(EncTag(WT_STRING, tag))], LaySub(env, sub, msg);
    ok := EncodeTag(stream, WT_STRING, tag);
    ghost var b := stream.Now();
    if !ok { EmitsFails(a, b, t, x); return; }
    Ready(a, b, t);
    ghost var changed;
    ok, changed := EncodeSubmessage(env, sub, msg, stream);
    EmitsThen(a, b, stream.Now(), t, ok, x);
  }

  /** encode_array for submessages: one record an entry. */
  method EncodeItems(env: Env, tag: nat, sub: nat, items: seq<Msg>, stream: OStream) returns (ok: bool)
    requires EnvOk(env) && Indexable(env) && sub < |env| && tag < U16
    requires forall i | 0 <= i < |items| :: MsgOk(env, sub, items[i])
    requires stream.Valid()
    modifies stream, stream.buf
    ensures Emits(old(stream.Now()), stream.Now(), ok, LayItems(env, tag, sub, items))
    decreases items, 0
  {
    hide Emits, EncTag, LaySub, MsgOk, LayItems;
    ghost var a := stream.Now();
    ghost var done: seq<Piece> := [];
    EmitsNothing(a);
    NoItems(env, tag, sub, items);
    var i := 0;
    while i < |items|
      invariant 0 <= i <= |items| && stream.Valid()
      invariant LayItems(env, tag, sub, items) == done + LayItems(env, tag, sub, items[i..])
      invariant Emits(a, stream.Now(), true, done)
    {
      ghost var b := stream.Now();
      ghost var x := [Raw(EncTag(WT_STRING, tag))] + LaySub(env, sub, items[i]);
      ghost var rest := LayItems(env, tag, sub, items[i + 1..]);
      NextItem(env, tag, sub, items, i);
      ok := EncodeMessageField(env, tag, sub, items[i], stream);
      EmitsThen(a, b, stream.Now(), done, ok, x);
      assert done + (x + rest) == done + x + rest;
      if !ok { EmitsFails(a, stream.Now(), done + x, rest); return; }
      Ready(b, stream.Now(), x);
      done := done + x;
      i := i + 1;
    }
    NoItems(env, tag, sub, items);
    assert done + [] == done;
    ok := true;
  }

  lemma NextItem(env: Env, tag: nat, sub: nat, items: seq<Msg>, i: nat)
    requires EnvOk(env) && sub < |env| && i < |items| && forall i | 0 <= i < |items| :: MsgOk(env, sub, items[i])
    ensures LayItems(env, tag, sub, items[i..])
         == [Raw(EncTag(WT_STRING, tag))] + LaySub(env, sub, items[i]) + LayItems(env, tag, sub, items[i + 1..])
  {
    assert items[i..][1..] == items[i + 1..];
  }

  lemma NoItems(env: Env, tag: nat, sub: nat, items: seq<Msg>)
    requires EnvOk(env) && sub < |env| && forall i | 0 <= i < |items| :: MsgOk(env, sub, items[i])
    ensures LayItems(env, tag, sub, items[|items|..]) == [] && items[0..] == items
  {
  }

  /** encode_field: presence, then the contents by kind of field. */
  method EncodeField(env: Env, k: nat, f: Field, slot: Slot, stream: OStream) returns (ok: bool)
    requires EnvOk(env) && Indexable(env) && KindOk(env, k, f.kind) && SlotOk(env, f.kind, slot) && f.tag < U16
    requires stream.Valid()
    modifies stream, stream.buf
    ensures Emits(old(stream.Now()), stream.Now(), ok, LaySlot(env, k, f, slot))
    decreases slot, 6
  {
    hide Emits, EncTag, LaySub, LayNums, LayItems, EncScalar, LayNumber;
    EmitsNothing(stream.Now());
    match f.kind
    case Singular(s) =>
      if slot.v == 0 { return true; }
      ok := EncodeNumber(stream, f.tag, s, slot.v);
    case PtrString =>
      if slot.addr.Null? { return true; }
      ok := EncodeStringField(stream, f.tag, slot.chars);
    case OptMsg(sub) =>
      if !slot.has { return true; }
      ok := EncodeMessageField(env, f.tag, sub, slot.msg, stream);
    case PtrMsgs(sub) =>
      NoItems(env, f.tag, sub, slot.items);
      if slot.addr.Null? || slot.items == [] { return true; }
      ok := EncodeItems(env, f.tag, sub, slot.items, stream);
    case PtrScalars(s) =>
      if slot.addr.Null? || slot.vals == [] { return true; }
      ok := EncodePacked(stream, f.tag, s, slot.vals);
    case ArrScalars(s, cap) =>
      if slot.vals == [] { return true; }
      if |slot.vals| > cap { EmitsStop(stream.Now()); return false; }
      ok := EncodePacked(stream, f.tag, s, slot.vals);
  }

  /** encode_basic_field on a string. */
  method EncodeStringField(stream: OStream, tag: nat, str: bytes) returns (ok: bool)
    requires 0 in str && |str| <= U32 && tag < U16
    requires stream.Valid()
    modifies stream, stream.buf
    ensures Emits(old(stream.Now()), stream.Now(), ok, [Raw(EncTag(WT_STRING, tag))] + LayString(UpToNul(str)))
  {
    hide Emits, EncTag, LayString, UpToNul;
    ghost var a, t, x := stream.Now(), [Raw(EncTag(WT_STRING, tag))], LayString(UpToNul(str));
    ok := EncodeTag(stream, WT_STRING, tag);
    ghost var b := stream.Now();
    if !ok { EmitsFails(a, b, t, x); return; }
    Ready(a, b, t);
    ok := EncString(stream, str);
    EmitsThen(a, b, stream.Now(), t, ok, x);
  }

  /** The loop of pb_encode. */
  method EncodeFields(env: Env, k: nat, m: Msg, stream: OStream) returns (ok: bool)
    requires EnvOk(env) && Indexable(env) && k < |env| && MsgOk(env, k, m)
    requires stream.Valid()
    modifies stream, stream.buf
    ensures Emits(old(stream.Now()), stream.Now(), ok, LayMsg(env, k, m))
    decreases m, 3
  {
    hide Emits, LaySlot, SlotOk, LayFrom, LayMsg, Bound, MsgOk, DescOk;
    hide PackAll, Offset, CountRequired, CountSubmsg, Infos, Widths;
    ghost var a := stream.Now();
    EmitsNothing(a);
    DescriptorBound(env, k);
    var iter := new FieldIter.Begin(Infos(env[k]), Widths(env[k]));
    NoFields(env, k, m);
    if iter.count == 0 { return true; }
    ghost var done: seq<Piece> := [];
    ghost var n := 0;
    var more := true;
    while more
      invariant fresh(iter) && iter.Valid() && iter.fs == Infos(env[k]) && stream.Valid()
      invariant n == (if more then iter.index else |m.slots|) && n <= |m.slots|
      invariant LayMsg(env, k, m) == done + LayFrom(env, k, m, n)
      invariant Emits(a, stream.Now(), true, done)
      decreases |m.slots| - n
    {
      var i := iter.index;
      ghost var b := stream.Now();
      NextField(env, k, m, i);
      ghost var x, rest := LaySlot(env, k, env[k][i], m.slots[i]), LayFrom(env, k, m, i + 1);
      ok := EncodeField(env, k, env[k][i], m.slots[i], stream);
      EmitsThen(a, b, stream.Now(), done, ok, x);
      assert done + (x + rest) == done + x + rest;
      if !ok { EmitsFails(a, stream.Now(), done + x, rest); return; }
      Ready(b, stream.Now(), x);
      done := done + x;
      n := i + 1;
      more := iter.Next();
    }
    assert done + [] == done;
    ok := true;
  }

  lemma NextField(env: Env, k: nat, m: Msg, i: nat)
    requires EnvOk(env) && k < |env| && MsgOk(env, k, m) && i < |m.slots| == |env[k]|
    ensures KindOk(env, k, env[k][i].kind) && env[k][i].tag < U16 && SlotOk(env, env[k][i].kind, m.slots[i])
    ensures LayFrom(env, k, m, i) == LaySlot(env, k, env[k][i], m.slots[i]) + LayFrom(env, k, m, i + 1)
  {
    assert DescOk(env, k);
  }

  lemma NoFields(env: Env, k: nat, m: Msg)
    requires EnvOk(env) && k < |env| && MsgOk(env, k, m)
    ensures |m.slots| == |env[k]|
    ensures LayFrom(env, k, m, |m.slots|) == [] && LayMsg(env, k, m) == LayFrom(env, k, m, 0)
  {
  }

  /** pb_encode. A buffer stream receives exactly the wire form, and the call succeeds exactly when the message can be
      encoded and there is room for it. Below 2^32 bytes in all, nothing is written past the buffer; beyond, that
      happens exactly when the size of some submessage wraps at the guard (for submessages that are each below 2^32
      bytes; Fates says it for all). A sizing stream counts the same bytes modulo 2^32. */
  method Encode(env: Env, k: nat, m: Msg, stream: OStream) returns (ok: bool)
    requires EnvOk(env) && Indexable(env) && k < |env| && MsgOk(env, k, m) && stream.Valid()
    modifies stream, stream.buf
    ensures Emits(old(stream.Now()), stream.Now(), ok, LayMsg(env, k, m))
    ensures WritesWireForm(old(stream.Now()), stream.Now(), ok, env, k, m)
    ensures OverrunsOnlyByWrapping(old(stream.Now()), stream.Now(), env, k, m)
  {
    hide Emits, LayMsg, WritesWireForm, OverrunsOnlyByWrapping, MsgOk;
    ok := EncodeFields(env, k, m, stream);
    Meaning(old(stream.Now()), stream.Now(), ok, env, k, m);
  }

  ghost predicate WritesWireForm(a: Out, b: Out, ok: bool, env: Env, k: nat, m: Msg)
    requires a.Ok() && EnvOk(env) && k < |env| && MsgOk(env, k, m)
  {
    var bs := EncMsg(env, k, m);
    if a.writing then
      && (ok <==> Encodable(env, k, m) && a.written + |bs| <= a.maxSize && |bs| <= a.Room())
      && (ok ==> b.written == a.written + |bs| && b.pos == a.pos + |bs| && Placed(a.mem, b.mem, a.pos, bs))
      && Inside(a.mem, b.mem, a.pos, a.Room())
    else
      (ok <==> Encodable(env, k, m)) && (ok ==> b.written == (a.written + |bs|) % U32)
  }

  ghost predicate OverrunsOnlyByWrapping(a: Out, b: Out, env: Env, k: nat, m: Msg)
    requires a.Ok() && EnvOk(env) && k < |env| && MsgOk(env, k, m)
  {
    a.writing && Roomy(a.written, a.Room(), a.maxSize) ==>
      && (Encodable(env, k, m) && a.written + |EncMsg(env, k, m)| < U32 ==> !b.over)
      && (Small(LayMsg(env, k, m)) ==> (b.over <==> Wraps(LayMsg(env, k, m), a.written, a.maxSize)))
  }

  lemma Meaning(a: Out, b: Out, ok: bool, env: Env, k: nat, m: Msg)
    requires a.Ok() && EnvOk(env) && k < |env| && MsgOk(env, k, m) && Emits(a, b, ok, LayMsg(env, k, m))
    ensures WritesWireForm(a, b, ok, env, k, m) && OverrunsOnlyByWrapping(a, b, env, k, m)
  {
    hide LayMsg, EncMsg, Encodable, MsgOk, Flat, Whole, Fates, Small, Wraps;
    var ps := LayMsg(env, k, m);
    MsgLayout(env, k, m);
    if a.writing {
      FitsExactly(ps, a.written, a.Room(), a.maxSize);
      if Roomy(a.written, a.Room(), a.maxSize) {
        if a.written + |Flat(ps)| < U32 { NoOverrun(ps, a.written, a.Room(), a.maxSize); }
        if Small(ps) { OverrunExactly(ps, a.written, a.Room(), a.maxSize); }
      }
    }
  }

  /** pb_get_encoded_size: the size modulo 2^32. */
  method GetEncodedSize(env: Env, k: nat, m: Msg) returns (ok: bool, size: nat)
    requires EnvOk(env) && Indexable(env) && k < |env| && MsgOk(env, k, m)
    ensures ok <==> Encodable(env, k, m)
    ensures ok ==> size == |EncMsg(env, k, m)| % U32
  {
    hide EncMsg, Encodable, MsgOk, Emits, LayMsg;
    var stream := new OStream.Sizing();
    ok := Encode(env, k, m, stream);
    size := stream.written;
  }
}
