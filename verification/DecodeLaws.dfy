/** Laws of decoding: concatenation merges, independent records commute, unknown fields do not matter,
    and an array may be cut into packed and single records in any way. */
module DecodeLaws {
  import opened Prelude
  import opened Varint
  import opened IStreams
  import opened Schema
  import opened Wire
  import opened RoundTrip
  import opened WireValues

  // ---------- a successful read does not look past what it consumes ----------

  lemma ReadTagAppend(a: bytes, b: bytes)
    requires ReadTag(a).Some?
    ensures ReadTag(a + b) == Some((ReadTag(a).value.0, ReadTag(a).value.1, ReadTag(a).value.2 + b))
  {
    hide Read32;
    Read32Append(a, b);
  }

  lemma DelimitedAppend(a: bytes, b: bytes)
    requires Delimited(a).Some?
    ensures Delimited(a + b) == Some((Delimited(a).value.0, Delimited(a).value.1 + b))
  {
    hide Read32;
    Read32Append(a, b);
    var (n, rest) := Read32(a).value;
    assert (rest + b)[..n] == rest[..n] && (rest + b)[n..] == rest[n..] + b;
  }

  lemma SkipFieldAppend(a: bytes, b: bytes, wt: nat)
    requires SkipField(a, wt).Some?
    ensures SkipField(a + b, wt) == Some(SkipField(a, wt).value + b)
  {
    if wt == WT_VARINT {
      ScanAppend(a, b);
      assert (a + b)[Scan(a) + 1..] == a[Scan(a) + 1..] + b;
    } else if wt == WT_STRING {
      DelimitedAppend(a, b);
    } else {
      var n := if wt == WT_64BIT then 8 else 4;
      assert (a + b)[n..] == a[n..] + b;
    }
  }

  lemma DecScalarAppend(s: Scalar, a: bytes, b: bytes)
    requires s.Ok() && DecScalar(s, a).Some?
    ensures DecScalar(s, a + b) == Some((DecScalar(s, a).value.0, DecScalar(s, a).value.1 + b))
  {
    hide Read32, Read64;
    match s.lt
    case LBool => Read32Append(a, b);
    case LFixed32 => assert (a + b)[..4] == a[..4] && (a + b)[4..] == a[4..] + b;
    case LFixed64 => assert (a + b)[..8] == a[..8] && (a + b)[8..] == a[8..] + b;
    case _ => Read64Append(a, b);
  }

  lemma DecSlotAppend(env: Env, k: nat, kind: Kind, wt: nat, a: bytes, b: bytes, slot: Slot)
    requires EnvOk(env) && KindOk(env, k, kind) && SlotOk(env, kind, slot)
    requires DecSlot(env, k, kind, wt, a, slot).Some?
    ensures var (s', rest) := DecSlot(env, k, kind, wt, a, slot).value;
            DecSlot(env, k, kind, wt, a + b, slot) == Some((s', rest + b))
  {
    hide Delimited, DecScalar, DecMsg, DecPacked;
    if Delimited(a).Some? { DelimitedAppend(a, b); }
    match kind
    case Singular(s) => DecScalarAppend(s, a, b);
    case PtrScalars(s) => if wt != WT_STRING { DecScalarAppend(s, a, b); }
    case ArrScalars(s, _) => if wt != WT_STRING { DecScalarAppend(s, a, b); }
    case _ =>
  }

  lemma DecRecordAppend(env: Env, k: nat, a: bytes, b: bytes, m: Msg)
    requires EnvOk(env) && k < |env| && MsgOk(env, k, m) && DecRecord(env, k, a, m).Some?
    ensures var (m', rest) := DecRecord(env, k, a, m).value;
            DecRecord(env, k, a + b, m) == Some((m', rest + b))
  {
    hide ReadTag, SkipField, DecSlot;
    ReadTagAppend(a, b);
    var (tag, wt, data) := ReadTag(a).value;
    match Find(env[k], tag)
    case None => SkipFieldAppend(data, b, wt);
    case Some(i) =>
      assert DescOk(env, k);
      DecSlotAppend(env, k, env[k][i].kind, wt, data, b, m.slots[i]);
  }

  // ---------- merging ----------

  /** Decoding a ++ b is decoding a and then, without initialising, b. */
  lemma {:induction false} Merge(env: Env, k: nat, a: bytes, b: bytes, m: Msg)
    requires EnvOk(env) && k < |env| && MsgOk(env, k, m) && DecMsg(env, k, a, m).Some?
    ensures DecMsg(env, k, a + b, m) == DecMsg(env, k, b, DecMsg(env, k, a, m).value)
    decreases |a|
  {
    hide DecRecord;
    if a == [] {
      assert a + b == b;
    } else {
      DecRecordAppend(env, k, a, b, m);
      var (m', rest) := DecRecord(env, k, a, m).value;
      Merge(env, k, rest, b, m');
    }
  }

  /** bs is exactly one record that m accepts. */
  ghost predicate Record(env: Env, k: nat, bs: bytes, m: Msg)
    requires EnvOk(env) && k < |env| && MsgOk(env, k, m)
  {
    DecRecord(env, k, bs, m).Some? && DecRecord(env, k, bs, m).value.1 == []
  }

  /** The field number a record carries. */
  function TagOf(bs: bytes): nat {
    match ReadTag(bs) case Some((tag, _, _)) => tag case None => 0
  }

  lemma RecordFirst(env: Env, k: nat, r: bytes, b: bytes, m: Msg)
    requires EnvOk(env) && k < |env| && MsgOk(env, k, m) && Record(env, k, r, m)
    ensures DecMsg(env, k, r + b, m) == DecMsg(env, k, b, DecRecord(env, k, r, m).value.0)
  {
    hide DecRecord;
    DecRecordAppend(env, k, r, b, m);
    assert [] + b == b;
  }

  /** A record reads and writes only the slot of its own field. */
  lemma RecordLocal(env: Env, k: nat, r: bytes, m: Msg, n: Msg)
    requires EnvOk(env) && k < |env| && MsgOk(env, k, m) && MsgOk(env, k, n)
    requires Record(env, k, r, m)
    requires forall i | 0 <= i < |env[k]| && env[k][i].tag == TagOf(r) :: n.slots[i] == m.slots[i]
    ensures Record(env, k, r, n)
    ensures forall i | 0 <= i < |env[k]| && env[k][i].tag != TagOf(r) ::
              && DecRecord(env, k, r, m).value.0.slots[i] == m.slots[i]
              && DecRecord(env, k, r, n).value.0.slots[i] == n.slots[i]
    ensures forall i | 0 <= i < |env[k]| && env[k][i].tag == TagOf(r) ::
              DecRecord(env, k, r, n).value.0.slots[i] == DecRecord(env, k, r, m).value.0.slots[i]
  {
    hide ReadTag, SkipField, DecSlot;
    if Find(env[k], TagOf(r)).Some? {
      FindOwn(env, k, Find(env[k], TagOf(r)).value);
    }
    forall i | 0 <= i < |env[k]| ensures Find(env[k], env[k][i].tag) == Some(i) { FindOwn(env, k, i); }
  }

  /** Two adjacent records of different fields may be swapped. */
  lemma Swap(env: Env, k: nat, r1: bytes, r2: bytes, b: bytes, m: Msg)
    requires EnvOk(env) && k < |env| && MsgOk(env, k, m)
    requires Record(env, k, r1, m) && Record(env, k, r2, m) && TagOf(r1) != TagOf(r2)
    ensures DecMsg(env, k, r1 + r2 + b, m) == DecMsg(env, k, r2 + r1 + b, m)
  {
    hide DecRecord, TagOf;
    var m1, m2 := DecRecord(env, k, r1, m).value.0, DecRecord(env, k, r2, m).value.0;
    RecordLocal(env, k, r1, m, m); RecordLocal(env, k, r2, m, m);
    RecordLocal(env, k, r2, m, m1); RecordLocal(env, k, r1, m, m2);
    RecordFirst(env, k, r1, r2 + b, m); RecordFirst(env, k, r2, b, m1);
    RecordFirst(env, k, r2, r1 + b, m); RecordFirst(env, k, r1, b, m2);
    assert r1 + r2 + b == r1 + (r2 + b) && r2 + r1 + b == r2 + (r1 + b);
    var x, y := DecRecord(env, k, r2, m1).value.0, DecRecord(env, k, r1, m2).value.0;
    assert x.slots == y.slots;
  }

  /** A number sent twice: the last record wins. */
  lemma LastWins(env: Env, k: nat, r1: bytes, r2: bytes, b: bytes, m: Msg, i: nat)
    requires EnvOk(env) && k < |env| && MsgOk(env, k, m) && i < |env[k]| && env[k][i].kind.Singular?
    requires Record(env, k, r1, m) && Record(env, k, r2, m) && TagOf(r1) == TagOf(r2) == env[k][i].tag
    ensures DecMsg(env, k, r1 + r2 + b, m) == DecMsg(env, k, r2 + b, m)
  {
    hide DecMsg, DecRecord, TagOf;
    var m1 := DecRecord(env, k, r1, m).value.0;
    NumberRecord(env, k, r1, m, m, i); NumberRecord(env, k, r2, m, m, i); NumberRecord(env, k, r2, m, m1, i);
    RecordFirst(env, k, r1, r2 + b, m); RecordFirst(env, k, r2, b, m); RecordFirst(env, k, r2, b, m1);
    assert r1 + r2 + b == r1 + (r2 + b);
    var last := DecRecord(env, k, r2, m).value.0.slots[i];
    assert m1.slots[i := last] == m.slots[i := last];
  }

  /** A number record overwrites its slot whatever the structure held before. */
  lemma NumberRecord(env: Env, k: nat, r: bytes, m: Msg, n: Msg, i: nat)
    requires EnvOk(env) && k < |env| && MsgOk(env, k, m) && MsgOk(env, k, n)
    requires i < |env[k]| && env[k][i].kind.Singular? && Record(env, k, r, m) && TagOf(r) == env[k][i].tag
    ensures Record(env, k, r, n)
    ensures DecRecord(env, k, r, n).value.0.slots == n.slots[i := DecRecord(env, k, r, m).value.0.slots[i]]
  {
    hide ReadTag, DecTyped, SkipField;
    assert DescOk(env, k);
    FindOwn(env, k, i);
    var (tag, wt, data) := ReadTag(r).value;
    assert DecSlot(env, k, env[k][i].kind, wt, data, m.slots[i])
           == DecSlot(env, k, env[k][i].kind, wt, data, n.slots[i]);
  }

  /** A static submessage sent in two records is the merge of both, the same as one record holding both payloads,
      exactly when the first payload is well formed by itself or the one record is refused as well. */
  lemma SubmessagesMerge(env: Env, k: nat, i: nat, p: bytes, q: bytes, b: bytes, m: Msg)
    requires EnvOk(env) && k < |env| && MsgOk(env, k, m) && i < |env[k]| && env[k][i].kind.OptMsg?
    requires DescOk(env, k) && |p + q| < U32 && SlotOk(env, env[k][i].kind, m.slots[i])
    ensures var (tag, first) := (EncTag(WT_STRING, env[k][i].tag), DecMsg(env, env[k][i].kind.sub, p, m.slots[i].msg));
            var two := DecMsg(env, k, tag + Counted(p) + (tag + Counted(q) + b), m);
            var one := DecMsg(env, k, tag + Counted(p + q) + b, m);
            && (two == one <==> first.Some? || one.None?)
            && (first.None? ==> two.None?)
  {
    hide Delimited, Counted, EncTag, DecMsg;
    var tag := EncTag(WT_STRING, env[k][i].tag);
    var more := tag + Counted(q) + b;
    if DecMsg(env, env[k][i].kind.sub, p, m.slots[i].msg).Some? {
      WellFormedMerge(env, k, i, p, q, b, m);
    } else {
      CountedRoundTrip(p, more);
      BadRecord(env, k, m, i, WT_STRING, Counted(p) + more);
      assert tag + Counted(p) + more == tag + (Counted(p) + more);
    }
  }

  lemma WellFormedMerge(env: Env, k: nat, i: nat, p: bytes, q: bytes, b: bytes, m: Msg)
    requires EnvOk(env) && k < |env| && MsgOk(env, k, m) && i < |env[k]| && env[k][i].kind.OptMsg?
    requires DescOk(env, k) && |p + q| < U32 && SlotOk(env, env[k][i].kind, m.slots[i])
    requires DecMsg(env, env[k][i].kind.sub, p, m.slots[i].msg).Some?
    ensures var tag := EncTag(WT_STRING, env[k][i].tag);
            DecMsg(env, k, tag + Counted(p) + (tag + Counted(q) + b), m) == DecMsg(env, k, tag + Counted(p + q) + b, m)
  {
    hide Delimited, Counted, EncTag, DecMsg;
    var tag, sub := EncTag(WT_STRING, env[k][i].tag), env[k][i].kind.sub;
    var x, was := DecMsg(env, sub, p, m.slots[i].msg).value, m.slots[i];
    Merge(env, sub, p, q, was.msg);
    var more := tag + Counted(q) + b;
    CountedRoundTrip(p, more); CountedRoundTrip(q, b); CountedRoundTrip(p + q, b);
    OneRecord(env, k, m, i, WT_STRING, Counted(p) + more, Sub(true, x), more);
    var m1 := Msg(m.slots[i := Sub(true, x)]);
    assert tag + Counted(p) + more == tag + (Counted(p) + more);
    assert more == tag + (Counted(q) + b) && tag + Counted(p + q) + b == tag + (Counted(p + q) + b);
    if DecMsg(env, sub, q, x).None? {
      BadRecord(env, k, m1, i, WT_STRING, Counted(q) + b);
      BadRecord(env, k, m, i, WT_STRING, Counted(p + q) + b);
    } else {
      var y := DecMsg(env, sub, q, x).value;
      OneRecord(env, k, m1, i, WT_STRING, Counted(q) + b, Sub(true, y), b);
      OneRecord(env, k, m, i, WT_STRING, Counted(p + q) + b, Sub(true, y), b);
      assert m1.slots[i := Sub(true, y)] == m.slots[i := Sub(true, y)];
    }
  }

  /** A message with one byte-sized number, and one that embeds it. */
  const SPLIT_ENV: Env := [[Field(1, Singular(Scalar(LUVarint, 1)))], [Field(1, OptMsg(0))]]

  /** A number cut in two: the tag alone is refused, tag and value together are not. */
  lemma CutNumber()
    ensures EnvOk(SPLIT_ENV) && MsgOk(SPLIT_ENV, 0, Msg([Num(0)]))
    ensures DecMsg(SPLIT_ENV, 0, [8], Msg([Num(0)])).None?
    ensures DecMsg(SPLIT_ENV, 0, [8] + [5], Msg([Num(0)])) == Some(Msg([Num(5)]))
  {
    SplitEnvOk();
    var m := Msg([Num(0)]);
    CutReads();
    FindOwn(SPLIT_ENV, 0, 0);
    hide ReadTag, Read64, Find, MsgOk;
    assert [8] + [5] == [8, 5] && m.slots[0 := Num(5)] == [Num(5)];
    assert DecRecord(SPLIT_ENV, 0, [8], m).None?;
    assert DecRecord(SPLIT_ENV, 0, [8, 5], m) == Some((Msg([Num(5)]), []));
  }

  /** Sent in two records the two halves are refused, in one record they are read. */
  lemma CutPayload()
    ensures EnvOk(SPLIT_ENV) && MsgOk(SPLIT_ENV, 1, Msg([Sub(false, Msg([Num(0)]))]))
    ensures var (tag, m) := (EncTag(WT_STRING, 1), Msg([Sub(false, Msg([Num(0)]))]));
            && DecMsg(SPLIT_ENV, 1, tag + Counted([8]) + (tag + Counted([5])), m).None?
            && DecMsg(SPLIT_ENV, 1, tag + Counted([8] + [5]), m) == Some(Msg([Sub(true, Msg([Num(5)]))]))
  {
    SplitEnvOk();
    CutNumber();
    hide Counted, EncTag, DecMsg, MsgOk, Delimited;
    var (tag, m, slot) := (EncTag(WT_STRING, 1), Msg([Sub(false, Msg([Num(0)]))]), Sub(true, Msg([Num(5)])));
    SubmessagesMerge(SPLIT_ENV, 1, 0, [8], [5], [], m);
    assert tag + Counted([5]) + [] == tag + Counted([5]);
    CountedRoundTrip([8] + [5], []);
    OneRecord(SPLIT_ENV, 1, m, 0, WT_STRING, Counted([8] + [5]) + [], slot, []);
    assert Counted([8] + [5]) + [] == Counted([8] + [5]) && m.slots[0 := slot] == [slot];
    NothingLeft(SPLIT_ENV, 1, Msg([slot]));
  }

  lemma NothingLeft(env: Env, k: nat, m: Msg)
    requires EnvOk(env) && k < |env| && MsgOk(env, k, m)
    ensures DecMsg(env, k, [], m) == Some(m)
  {
  }

  lemma SplitEnvOk()
    ensures EnvOk(SPLIT_ENV) && MsgOk(SPLIT_ENV, 0, Msg([Num(0)]))
    ensures MsgOk(SPLIT_ENV, 1, Msg([Sub(false, Msg([Num(0)]))])) && DescOk(SPLIT_ENV, 1)
    ensures SlotOk(SPLIT_ENV, OptMsg(0), Sub(false, Msg([Num(0)])))
  {
    assert DescOk(SPLIT_ENV, 0) && DescOk(SPLIT_ENV, 1);
  }

  lemma CutReads()
    ensures ReadTag([8]) == Some((1, 0, [])) && ReadTag([8, 5]) == Some((1, 0, [5]))
    ensures Read64([]).None? && Read64([5]) == Some((5, []))
  {
    assert [8][..1] == [8] && [8][1..] == [] && [8, 5][..1] == [8] && [8, 5][1..] == [5];
    assert [5][..1] == [5] && [5][1..] == [];
    assert Leb([8]) == 8 && Leb([5]) == 5;
  }

  lemma BadRecord(env: Env, k: nat, m: Msg, i: nat, wt: nat, data: bytes)
    requires EnvOk(env) && k < |env| && MsgOk(env, k, m) && i < |m.slots| && wt < 8
    requires DescOk(env, k) && DecSlot(env, k, env[k][i].kind, wt, data, m.slots[i]).None?
    ensures DecMsg(env, k, EncTag(wt, env[k][i].tag) + data, m).None?
  {
    hide DecSlot;
    TagRoundTrip(wt, env[k][i].tag, data);
    FindOwn(env, k, i);
  }

  /** Repeated fields have only grown at the end, also those inside static submessages. */
  ghost predicate Extends(a: Slot, b: Slot)
    decreases a
  {
    match a
    case Num(_) => b.Num?
    case Str(_, _) => b.Str?
    case Sub(_, x) =>
      b.Sub? && |x.slots| == |b.msg.slots| && forall i | 0 <= i < |x.slots| :: Extends(x.slots[i], b.msg.slots[i])
    case Msgs(_, xs) => b.Msgs? && xs <= b.items
    case Nums(_, xs) => b.Nums? && xs <= b.vals
    case Arr(xs) => b.Arr? && xs <= b.vals
  }

  ghost predicate AllExtend(m: Msg, n: Msg) {
    |m.slots| == |n.slots| && forall i | 0 <= i < |m.slots| :: Extends(m.slots[i], n.slots[i])
  }

  lemma {:induction false} ExtendsItself(a: Slot)
    ensures Extends(a, a)
    decreases a
  {
    if a.Sub? {
      forall i | 0 <= i < |a.msg.slots|
        ensures Extends(a.msg.slots[i], a.msg.slots[i])
      {
        ExtendsItself(a.msg.slots[i]);
      }
    }
  }

  lemma {:induction false} ExtendsOn(a: Slot, b: Slot, c: Slot)
    requires Extends(a, b) && Extends(b, c)
    ensures Extends(a, c)
    decreases a
  {
    if a.Sub? {
      forall i | 0 <= i < |a.msg.slots| ensures Extends(a.msg.slots[i], c.msg.slots[i]) {
        ExtendsOn(a.msg.slots[i], b.msg.slots[i], c.msg.slots[i]);
      }
    }
  }

  lemma {:induction false} RepeatedAppend(env: Env, k: nat, bs: bytes, m: Msg)
    requires EnvOk(env) && k < |env| && MsgOk(env, k, m) && DecMsg(env, k, bs, m).Some?
    ensures AllExtend(m, DecMsg(env, k, bs, m).value)
    decreases |bs|, 2
  {
    hide DecRecord, Extends;
    if bs == [] {
      forall i | 0 <= i < |m.slots| ensures Extends(m.slots[i], m.slots[i]) { ExtendsItself(m.slots[i]); }
    } else {
      var (m', rest) := DecRecord(env, k, bs, m).value;
      RecordExtends(env, k, bs, m);
      RepeatedAppend(env, k, rest, m');
      var n := DecMsg(env, k, bs, m).value;
      forall i | 0 <= i < |m.slots| ensures Extends(m.slots[i], n.slots[i]) {
        ExtendsOn(m.slots[i], m'.slots[i], n.slots[i]);
      }
    }
  }

  lemma {:induction false} RecordExtends(env: Env, k: nat, bs: bytes, m: Msg)
    requires EnvOk(env) && k < |env| && MsgOk(env, k, m) && DecRecord(env, k, bs, m).Some?
    ensures AllExtend(m, DecRecord(env, k, bs, m).value.0)
    decreases |bs|, 1
  {
    hide ReadTag, SkipField, DecSlot, Extends;
    var (tag, wt, data) := ReadTag(bs).value;
    forall i | 0 <= i < |m.slots| ensures Extends(m.slots[i], m.slots[i]) { ExtendsItself(m.slots[i]); }
    if Find(env[k], tag).Some? {
      assert DescOk(env, k);
      var i := Find(env[k], tag).value;
      SlotExtends(env, k, env[k][i].kind, wt, data, m.slots[i]);
    }
  }

  lemma {:induction false} SlotExtends(env: Env, k: nat, kind: Kind, wt: nat, bs: bytes, slot: Slot)
    requires EnvOk(env) && KindOk(env, k, kind) && SlotOk(env, kind, slot) && DecSlot(env, k, kind, wt, bs, slot).Some?
    ensures Extends(slot, DecSlot(env, k, kind, wt, bs, slot).value.0)
    decreases |bs|, 3
  {
    hide Delimited, DecMsg, DecTyped, DecArray, MsgOk, Default;
    if kind.OptMsg? {
      RepeatedAppend(env, kind.sub, Delimited(bs).value.0, slot.msg);
    }
  }

  // ---------- unknown fields ----------

  /** Data that some writer puts behind a tag. */
  datatype Foreign = Number(s: Scalar, v: int) | Varint(c: bytes) | Payload(p: bytes)

  ghost predicate ForeignOk(u: Foreign) {
    match u
    case Number(s, v) => s.Ok() && s.Holds(v)
    case Varint(c) => Complete(c)
    case Payload(p) => |p| < U32
  }

  /** The record as the standard writes it. */
  function Written(tag: nat, u: Foreign): bytes
    requires ForeignOk(u)
  {
    match u
    case Number(s, v) => EncTag(WireType(s.lt), tag) + EncScalar(s, v)
    case Varint(c) => EncTag(0, tag) + c
    case Payload(p) => EncTag(2, tag) + Counted(p)
  }

  /** A number, a varint of any length, a string or a submessage under a field number the descriptor does not have
      changes nothing, at any field boundary. */
  lemma UnknownIgnored(env: Env, k: nat, a: bytes, tag: nat, u: Foreign, b: bytes, m: Msg)
    requires EnvOk(env) && k < |env| && MsgOk(env, k, m) && DecMsg(env, k, a, m).Some?
    requires 0 < tag && 8 * tag + 7 < U32 && ForeignOk(u) && forall i | 0 <= i < |env[k]| :: env[k][i].tag != tag
    ensures DecMsg(env, k, a + Written(tag, u) + b, m) == DecMsg(env, k, a + b, m)
  {
    hide DecMsg, DecRecord, TagOf, Written;
    UnknownTaken(env, k, tag, u, m);
    NoSuchField(env[k], tag);
    UnknownRecordIgnored(env, k, a, Written(tag, u), b, m);
  }

  lemma NoSuchField(d: Desc, tag: nat)
    requires forall i | 0 <= i < |d| :: d[i].tag != tag
    ensures Find(d, tag).None?
  {
  }

  /** What was written is exactly one record. */
  lemma UnknownTaken(env: Env, k: nat, tag: nat, u: Foreign, m: Msg)
    requires EnvOk(env) && k < |env| && MsgOk(env, k, m)
    requires 0 < tag && 8 * tag + 7 < U32 && ForeignOk(u) && forall i | 0 <= i < |env[k]| :: env[k][i].tag != tag
    ensures Record(env, k, Written(tag, u), m) && TagOf(Written(tag, u)) == tag
  {
    hide ReadTag, EncTag, EncScalar, Counted, SkipField;
    NoSuchField(env[k], tag);
    match u
    case Number(s, v) =>
      AnyTagRead(WireType(s.lt), tag, EncScalar(s, v));
      SkipsNumber(s, v, []);
      assert EncScalar(s, v) + [] == EncScalar(s, v);
    case Varint(c) =>
      AnyTagRead(0, tag, c);
      SkipsVarint(c, []);
      assert c + [] == c;
    case Payload(p) =>
      AnyTagRead(2, tag, Counted(p));
      SkipsCounted(p, []);
      assert Counted(p) + [] == Counted(p);
  }

  /** The tag of any field number that fits its 32 bits. */
  lemma AnyTagRead(wt: nat, tag: nat, tail: bytes)
    requires wt < 8 && 8 * tag + wt < U32
    ensures ReadTag(EncTag(wt, tag) + tail) == Some((tag, wt, tail))
  {
    hide Read32, Minimal;
    Read32Minimal(8 * tag + wt, tail);
  }

  /** The same for whatever the decoder takes as one record. */
  lemma UnknownRecordIgnored(env: Env, k: nat, a: bytes, u: bytes, b: bytes, m: Msg)
    requires EnvOk(env) && k < |env| && MsgOk(env, k, m) && DecMsg(env, k, a, m).Some?
    requires Record(env, k, u, m) && Find(env[k], TagOf(u)).None?
    ensures DecMsg(env, k, a + u + b, m) == DecMsg(env, k, a + b, m)
  {
    hide DecMsg, DecRecord, TagOf;
    var m1 := DecMsg(env, k, a, m).value;
    Merge(env, k, a, u + b, m);
    Merge(env, k, a, b, m);
    assert a + u + b == a + (u + b);
    UnknownRecord(env, k, u, m, m1);
    RecordFirst(env, k, u, b, m1);
  }

  lemma UnknownRecord(env: Env, k: nat, u: bytes, m: Msg, n: Msg)
    requires EnvOk(env) && k < |env| && MsgOk(env, k, m) && MsgOk(env, k, n)
    requires Record(env, k, u, m) && Find(env[k], TagOf(u)).None?
    ensures Record(env, k, u, n) && DecRecord(env, k, u, n).value.0 == n
  {
    hide ReadTag, SkipField;
  }

  // ---------- what is refused ----------

  /** A record that is cut anywhere is refused. */
  lemma CutRecordRefused(env: Env, k: nat, r: bytes, n: nat, m: Msg)
    requires EnvOk(env) && k < |env| && MsgOk(env, k, m) && Record(env, k, r, m) && 0 < n < |r|
    ensures DecMsg(env, k, r[..n], m).None?
  {
    hide DecRecord;
    assert r[..n] + r[n..] == r;
    if DecRecord(env, k, r[..n], m).Some? {
      DecRecordAppend(env, k, r[..n], r[n..], m);
      assert false;
    }
  }

  /** Field number 0 is refused at every field boundary. */
  lemma ZeroTagRefused(env: Env, k: nat, a: bytes, wt: nat, b: bytes, m: Msg)
    requires EnvOk(env) && k < |env| && MsgOk(env, k, m) && wt < 8 && DecMsg(env, k, a, m).Some?
    ensures DecMsg(env, k, a + (EncTag(wt, 0) + b), m).None?
  {
    hide ReadTag, EncTag, DecSlot, SkipField;
    Merge(env, k, a, EncTag(wt, 0) + b, m);
    AnyTagRead(wt, 0, b);
    TagValue(wt, 0);
  }

  /** The wire types a field takes: its own, and for arrays of numbers also that of a packed run. */
  predicate Takes(kind: Kind, wt: nat) {
    match kind
    case Singular(s) => wt == WireType(s.lt)
    case PtrScalars(s) => wt == WireType(s.lt) || wt == 2
    case ArrScalars(s, _) => wt == WireType(s.lt) || wt == 2
    case _ => wt == 2
  }

  /** A field that comes with another wire type is refused at every field boundary. */
  lemma WrongWireTypeRefused(env: Env, k: nat, a: bytes, i: nat, wt: nat, b: bytes, m: Msg)
    requires EnvOk(env) && k < |env| && MsgOk(env, k, m) && i < |env[k]| && wt < 8 && !Takes(env[k][i].kind, wt)
    requires DecMsg(env, k, a, m).Some?
    ensures DecMsg(env, k, a + (EncTag(wt, env[k][i].tag) + b), m).None?
  {
    hide EncTag, DecMsg, Delimited, DecScalar, DecPacked;
    assert DescOk(env, k);
    Merge(env, k, a, EncTag(wt, env[k][i].tag) + b, m);
    BadRecord(env, k, DecMsg(env, k, a, m).value, i, wt, b);
  }

  // ---------- cutting an array into records ----------

  datatype Chunk = Packed(vs: seq<int>) | Single(v: int)

  function ChunkVals(c: Chunk): seq<int> {
    match c case Packed(vs) => vs case Single(v) => [v]
  }

  function Values(cs: seq<Chunk>): seq<int> {
    if cs == [] then [] else ChunkVals(cs[0]) + Values(cs[1..])
  }

  ghost predicate ChunkOk(s: Scalar, c: Chunk)
    requires s.Ok()
  {
    match c
    case Packed(vs) => (forall j | 0 <= j < |vs| :: s.Holds(vs[j])) && |EncNums(s, vs)| < U32
    case Single(v) => s.Holds(v)
  }

  ghost predicate ChunksOk(s: Scalar, cs: seq<Chunk>)
    requires s.Ok()
  {
    forall i | 0 <= i < |cs| :: ChunkOk(s, cs[i])
  }

  /** The records carrying the chunks, packed or one element each. */
  function EncChunks(tag: nat, s: Scalar, cs: seq<Chunk>): bytes
    requires s.Ok() && ChunksOk(s, cs)
  {
    if cs == [] then [] else EncChunk(tag, s, cs[0]) + EncChunks(tag, s, cs[1..])
  }

  function EncChunk(tag: nat, s: Scalar, c: Chunk): bytes
    requires s.Ok() && ChunkOk(s, c)
  {
    match c
    case Packed(vs) => EncTag(WT_STRING, tag) + Counted(EncNums(s, vs))
    case Single(v) => EncTag(WireType(s.lt), tag) + EncScalar(s, v)
  }

  /** The slot of a repeated number field with more values at its end. */
  function Grown(slot: Slot, ws: seq<int>): Slot
    requires slot.Nums? || slot.Arr?
  {
    match slot
    case Nums(a, vs) => Nums(if ws == [] then a else At(0), vs + ws)
    case Arr(vs) => Arr(vs + ws)
  }

  function Cap(kind: Kind): nat {
    match kind case ArrScalars(_, cap) => cap case _ => SIZE_MAX
  }

  /** Elements beyond the capacity are refused. */
  lemma {:induction false} PackedOverflow(s: Scalar, cap: nat, vs: seq<int>, ws: seq<int>)
    requires s.Ok() && (forall i | 0 <= i < |vs| :: s.Holds(vs[i])) && forall i | 0 <= i < |ws| :: s.Holds(ws[i])
    requires cap <= SIZE_MAX && |ws| <= SIZE_MAX && |ws| + |vs| > cap && vs != []
    ensures DecPacked(s, cap, EncNums(s, vs), ws).None?
    decreases |vs|
  {
    hide DecScalar, EncElem;
    ElemRoundTrip(s, vs[0], EncNums(s, vs[1..]));
    if |ws| < cap {
      PackedOverflow(s, cap, vs[1..], ws + [NormVal(s, vs[0])]);
    }
  }

  /** Whether the values find room behind those the slot holds. */
  predicate Room(kind: Kind, slot: Slot, ws: seq<int>)
    requires slot.Nums? || slot.Arr?
  {
    ws == [] || |slot.vals| + |ws| <= Cap(kind)
  }

  lemma OneChunk(env: Env, k: nat, i: nat, s: Scalar, c: Chunk, m: Msg, tail: bytes)
    requires EnvOk(env) && k < |env| && MsgOk(env, k, m) && i < |env[k]| && DescOk(env, k)
    requires env[k][i].kind == PtrScalars(s) || (env[k][i].kind.ArrScalars? && env[k][i].kind.s == s)
    requires ChunkOk(s, c) && (m.slots[i].Nums? || m.slots[i].Arr?)
    ensures var after := Msg(m.slots[i := Grown(m.slots[i], NormVals(s, ChunkVals(c)))]);
            var read := DecMsg(env, k, EncChunk(env[k][i].tag, s, c) + tail, m);
            if Room(env[k][i].kind, m.slots[i], ChunkVals(c))
                then MsgOk(env, k, after) && read == DecMsg(env, k, tail, after)
            else read.None?
  {
    hide Delimited, Counted, EncTag, DecMsg, DecPacked, DecScalar, EncScalar, EncNums;
    var slot, ws := m.slots[i], NormVals(s, ChunkVals(c));
    var f := env[k][i];
    match c
    case Packed(vs) =>
      var data := Counted(EncNums(s, vs)) + tail;
      CountedRoundTrip(EncNums(s, vs), tail);
      assert EncChunk(f.tag, s, c) + tail == EncTag(WT_STRING, f.tag) + data;
      if vs == [] {
        NoNumbers(s, Cap(f.kind), slot.vals);
        assert slot.vals + [] == slot.vals;
        OneRecord(env, k, m, i, WT_STRING, data, Grown(slot, ws), tail);
      } else if |slot.vals| + |vs| <= Cap(f.kind) {
        PackedRoundTrip(s, Cap(f.kind), vs, slot.vals);
        OneRecord(env, k, m, i, WT_STRING, data, Grown(slot, ws), tail);
      } else {
        PackedOverflow(s, Cap(f.kind), vs, slot.vals);
        BadRecord(env, k, m, i, WT_STRING, data);
      }
    case Single(v) =>
      var data := EncScalar(s, v) + tail;
      ScalarRoundTrip(s, v, tail);
      assert ws == [NormVal(s, v)];
      assert EncChunk(f.tag, s, c) + tail == EncTag(WireType(s.lt), f.tag) + data;
      if |slot.vals| < Cap(f.kind) {
        OneRecord(env, k, m, i, WireType(s.lt), data, Grown(slot, ws), tail);
      } else {
        BadRecord(env, k, m, i, WireType(s.lt), data);
      }
  }

  lemma NoNumbers(s: Scalar, cap: nat, vs: seq<int>)
    requires s.Ok() && cap <= SIZE_MAX && |vs| <= SIZE_MAX && forall i | 0 <= i < |vs| :: s.Holds(vs[i])
    ensures DecPacked(s, cap, EncNums(s, []), vs) == Some(vs) && NormVals(s, []) == []
  {
  }

  /** Any cut of the values into packed and single records appends exactly those values (bools as 0 or 1) if there is
      room for all of them, and is refused if there is not. */
  lemma {:induction false} ChunksAppend(env: Env, k: nat, i: nat, s: Scalar, cs: seq<Chunk>, m: Msg, tail: bytes)
    requires EnvOk(env) && k < |env| && MsgOk(env, k, m) && i < |env[k]| && DescOk(env, k)
    requires env[k][i].kind == PtrScalars(s) || (env[k][i].kind.ArrScalars? && env[k][i].kind.s == s)
    requires ChunksOk(s, cs) && (m.slots[i].Nums? || m.slots[i].Arr?)
    ensures var after := Msg(m.slots[i := Grown(m.slots[i], NormVals(s, Values(cs)))]);
            var read := DecMsg(env, k, EncChunks(env[k][i].tag, s, cs) + tail, m);
            if Room(env[k][i].kind, m.slots[i], Values(cs))
                then MsgOk(env, k, after) && read == DecMsg(env, k, tail, after)
            else read.None?
    decreases |cs|
  {
    hide DecMsg, EncChunk;
    if cs == [] {
      assert m.slots[i].vals + [] == m.slots[i].vals && NormVals(s, []) == [];
      assert [] + tail == tail && m.slots[i := Grown(m.slots[i], [])] == m.slots;
    } else {
      var f, c, tl := env[k][i], cs[0], cs[1..];
      assert ChunkOk(s, c) && ChunksOk(s, tl);
      var more := EncChunks(f.tag, s, tl) + tail;
      assert EncChunks(f.tag, s, cs) + tail == EncChunk(f.tag, s, c) + more;
      OneChunk(env, k, i, s, c, m, more);
      if Room(f.kind, m.slots[i], ChunkVals(c)) {
        var m1 := Msg(m.slots[i := Grown(m.slots[i], NormVals(s, ChunkVals(c)))]);
        ChunksAppend(env, k, i, s, tl, m1, tail);
        NormSum(s, ChunkVals(c), Values(tl));
        GrownTwice(m.slots[i], NormVals(s, ChunkVals(c)), NormVals(s, Values(tl)));
        var g := Grown(m.slots[i], NormVals(s, Values(cs)));
        assert m1.slots[i := g] == m.slots[i := g];
      }
    }
  }

  lemma NormSum(s: Scalar, vs: seq<int>, ws: seq<int>)
    ensures NormVals(s, vs + ws) == NormVals(s, vs) + NormVals(s, ws)
  {
  }

  lemma GrownTwice(slot: Slot, xs: seq<int>, ys: seq<int>)
    requires slot.Nums? || slot.Arr?
    ensures Grown(Grown(slot, xs), ys) == Grown(slot, xs + ys)
  {
    assert slot.vals + xs + ys == slot.vals + (xs + ys);
  }

  /** Hence the wire form of an array does not matter, within the capacity and beyond it. */
  lemma WireFormIrrelevant(env: Env, k: nat, i: nat, s: Scalar, cs: seq<Chunk>, ds: seq<Chunk>, m: Msg, tail: bytes)
    requires EnvOk(env) && k < |env| && MsgOk(env, k, m) && i < |env[k]| && DescOk(env, k)
    requires env[k][i].kind == PtrScalars(s) || (env[k][i].kind.ArrScalars? && env[k][i].kind.s == s)
    requires ChunksOk(s, cs) && ChunksOk(s, ds) && Values(cs) == Values(ds)
    requires m.slots[i].Nums? || m.slots[i].Arr?
    ensures DecMsg(env, k, EncChunks(env[k][i].tag, s, cs) + tail, m)
         == DecMsg(env, k, EncChunks(env[k][i].tag, s, ds) + tail, m)
  {
    ChunksAppend(env, k, i, s, cs, m, tail);
    ChunksAppend(env, k, i, s, ds, m, tail);
  }
}
