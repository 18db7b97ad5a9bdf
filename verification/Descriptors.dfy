/** The packed descriptor the generated sources give for a message, as the iterator walks it. */
module Descriptors {
  import opened Schema
  import opened FieldIters

  const PB_ATYPE_PTR := 0x80
  const PB_HTYPE_OPTIONAL := 0x10  // also singular
  const PB_HTYPE_REPEATED := 0x20
  const PB_LTYPE_STRING := 7

  function LTypeCode(lt: LType): nat {
    match lt
    case LBool => 0 case LVarint => 1 case LUVarint => 2 case LSVarint => 3 case LFixed32 => 4 case LFixed64 => 5
  }

  /** The type byte: allocation, repetition and data type. */
  function TypeByte(kind: Kind): nat {
    match kind
    case Singular(s) => PB_HTYPE_OPTIONAL + LTypeCode(s.lt)
    case PtrString => PB_ATYPE_PTR + PB_HTYPE_OPTIONAL + PB_LTYPE_STRING
    case OptMsg(_) => PB_HTYPE_OPTIONAL + LTYPE_SUBMESSAGE
    case PtrMsgs(_) => PB_ATYPE_PTR + PB_HTYPE_REPEATED + LTYPE_SUBMESSAGE
    case PtrScalars(s) => PB_ATYPE_PTR + PB_HTYPE_REPEATED + LTypeCode(s.lt)
    case ArrScalars(s, _) => PB_HTYPE_REPEATED + LTypeCode(s.lt)
  }

  /** Structure layout is not part of the model, so the layout members stay zero. */
  function Describe(f: Field): FieldInfo {
    FieldInfo(f.tag, TypeByte(f.kind), 0, 0, 0, if f.kind.ArrScalars? then f.kind.cap else 1)
  }

  function Infos(d: Desc): (fs: seq<FieldInfo>)
    ensures |fs| == |d|
  {
    seq(|d|, i requires 0 <= i < |d| => Describe(d[i]))
  }

  function Widths(d: Desc): (ws: seq<Width>)
    ensures |ws| == |d|
  {
    seq(|d|, _ => W4)
  }

  /** Each descriptor is small enough for the 16-bit word index of the iterator. */
  ghost predicate Indexable(env: Env) {
    forall k | 0 <= k < |env| :: |env[k]| < 0x4000
  }

  lemma {:induction false} OffsetFour(d: Desc, i: nat)
    requires i <= |d|
    ensures Offset(Widths(d), i) == 4 * i
  {
    if i > 0 { OffsetFour(d, i - 1); }
  }

  lemma DescriptorBound(env: Env, k: nat)
    requires EnvOk(env) && Indexable(env) && k < |env|
    ensures Bound(Infos(env[k]), Widths(env[k]))
    ensures forall i | 0 <= i < |env[k]| :: !IsExtension(Infos(env[k])[i].typ)
  {
    assert DescOk(env, k);
    OffsetFour(env[k], |env[k]|);
  }
}
