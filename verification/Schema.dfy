/** Message descriptors and the structures they describe. A message is the tree of its fields;
    pointer fields carry the address of the heap block holding what hangs below them. */
module Schema {
  import opened Prelude

  // ---------- descriptors ----------

  datatype LType = LBool | LVarint | LUVarint | LSVarint | LFixed32 | LFixed64

  /** A packable field type with its data_size. */
  datatype Scalar = Scalar(lt: LType, size: nat) {
    predicate Ok() {
      match lt
      case LBool => size == 1
      case LFixed32 => size == 4
      case LFixed64 => size == 8
      case _ => size in {1, 2, 4, 8}
    }

    /** The values the structure member can hold; a bool member may hold any byte. */
    predicate Holds(v: int) {
      match lt
      case LVarint => -(Modulus(size) / 2) <= v < Modulus(size) / 2
      case LSVarint => -(Modulus(size) / 2) <= v < Modulus(size) / 2
      case _ => 0 <= v < Modulus(size)
    }
  }

  function Modulus(size: nat): (w: nat) {
    if size == 1 then 0x100 else if size == 2 then U16 else if size == 4 then U32 else U64
  }

  datatype Kind =
    | Singular(s: Scalar)              // static, singular
    | PtrString                        // allocated, singular string
    | OptMsg(sub: nat)                 // static, optional, with its has_ flag
    | PtrMsgs(sub: nat)                // allocated, repeated
    | PtrScalars(s: Scalar)            // allocated, repeated
    | ArrScalars(s: Scalar, cap: nat)  // static, repeated

  datatype Field = Field(tag: nat, kind: Kind)

  type Desc = seq<Field>

  /** All descriptors of a program; submsg_info refers to them by index. */
  type Env = seq<Desc>

  /** PB_SIZE_MAX: counts and array sizes are 16 bits wide. */
  const SIZE_MAX := 0xFFFF

  /** A structure cannot contain itself, so static submessages refer backwards; pointers may refer anywhere. */
  predicate KindOk(env: Env, k: nat, kind: Kind) {
    match kind
    case Singular(s) => s.Ok()
    case PtrString => true
    case OptMsg(sub) => sub < k && sub < |env|
    case PtrMsgs(sub) => sub < |env|
    case PtrScalars(s) => s.Ok()
    case ArrScalars(s, cap) => s.Ok() && 0 < cap <= SIZE_MAX
  }

  predicate DescOk(env: Env, k: nat)
    requires k < |env|
  {
    && (forall i | 0 <= i < |env[k]| :: 0 < env[k][i].tag < U16 && KindOk(env, k, env[k][i].kind))
    && (forall i, j | 0 <= i < j < |env[k]| :: env[k][i].tag < env[k][j].tag)
  }

  ghost predicate EnvOk(env: Env) {
    forall k | 0 <= k < |env| :: DescOk(env, k)
  }

  /** The field with the given tag. */
  function Find(d: Desc, tag: nat): (r: Option<nat>)
    ensures r.Some? ==> r.value < |d| && d[r.value].tag == tag
    ensures r.None? ==> forall i | 0 <= i < |d| :: d[i].tag != tag
  {
    FindFrom(d, tag, 0)
  }

  function FindFrom(d: Desc, tag: nat, i: nat): (r: Option<nat>)
    requires i <= |d|
    ensures r.Some? ==> i <= r.value < |d| && d[r.value].tag == tag
    ensures r.None? ==> forall j | i <= j < |d| :: d[j].tag != tag
    decreases |d| - i
  {
    if i == |d| then None else if d[i].tag == tag then Some(i) else FindFrom(d, tag, i + 1)
  }

  // ---------- messages ----------

  datatype Addr = Null | At(id: nat)

  datatype Slot =
    | Num(v: int)
    | Str(addr: Addr, chars: bytes)       // the block, terminator included
    | Sub(has: bool, msg: Msg)            // embedded, also when absent
    | Msgs(addr: Addr, items: seq<Msg>)   // the live entries of the array
    | Nums(addr: Addr, vals: seq<int>)
    | Arr(vals: seq<int>)

  datatype Msg = Msg(slots: seq<Slot>)

  ghost predicate MsgOk(env: Env, k: nat, m: Msg)
    requires k < |env|
    decreases m
  {
    && |m.slots| == |env[k]|
    && forall i | 0 <= i < |m.slots| :: SlotOk(env, env[k][i].kind, m.slots[i])
  }

  /** The slot has the field's shape, its numbers fit their members, a C string is terminated and lies in a 32-bit
      address space. */
  ghost predicate SlotOk(env: Env, kind: Kind, slot: Slot)
    decreases slot
  {
    match kind
    case Singular(s) => slot.Num? && s.Holds(slot.v)
    case PtrString => slot.Str? && if slot.addr.Null? then slot.chars == [] else 0 in slot.chars && |slot.chars| <= U32
    case OptMsg(sub) => slot.Sub? && sub < |env| && MsgOk(env, sub, slot.msg)
    case PtrMsgs(sub) =>
      && slot.Msgs? && sub < |env| && |slot.items| <= SIZE_MAX && (slot.addr.Null? ==> slot.items == [])
      && forall i | 0 <= i < |slot.items| :: MsgOk(env, sub, slot.items[i])
    case PtrScalars(s) =>
      && slot.Nums? && |slot.vals| <= SIZE_MAX && (slot.addr.Null? ==> slot.vals == [])
      && forall i | 0 <= i < |slot.vals| :: s.Holds(slot.vals[i])
    case ArrScalars(s, cap) =>
      && slot.Arr? && |slot.vals| <= SIZE_MAX
      && forall i | 0 <= i < |slot.vals| :: s.Holds(slot.vals[i])
  }

  /** What pb_message_set_to_defaults leaves: zeros, NULL pointers, zero counts. */
  function Default(env: Env, k: nat): (m: Msg)
    requires k < |env| && EnvOk(env)
    ensures MsgOk(env, k, m)
    decreases k
  {
    Msg(seq(|env[k]|, i requires 0 <= i < |env[k]| => assert DescOk(env, k); DefaultSlot(env, k, env[k][i].kind)))
  }

  function DefaultSlot(env: Env, k: nat, kind: Kind): (s: Slot)
    requires k < |env| && EnvOk(env) && KindOk(env, k, kind)
    ensures SlotOk(env, kind, s)
    decreases k, 0
  {
    match kind
    case Singular(_) => Num(0)
    case PtrString => Str(Null, [])
    case OptMsg(sub) => Sub(false, Default(env, sub))
    case PtrMsgs(_) => Msgs(Null, [])
    case PtrScalars(_) => Nums(Null, [])
    case ArrScalars(_, _) => Arr([])
  }

  // ---------- addresses ----------

  function EraseAddr(a: Addr): Addr {
    if a.Null? then Null else At(0)
  }

  /** The message without the identity of its blocks. */
  function Erase(m: Msg): (r: Msg)
    ensures |r.slots| == |m.slots|
    decreases m
  {
    Msg(seq(|m.slots|, i requires 0 <= i < |m.slots| => EraseSlot(m.slots[i])))
  }

  function EraseSlot(s: Slot): Slot
    decreases s
  {
    match s
    case Num(_) => s
    case Str(a, cs) => Str(EraseAddr(a), cs)
    case Sub(has, msg) => Sub(has, Erase(msg))
    case Msgs(a, items) => Msgs(EraseAddr(a), seq(|items|, i requires 0 <= i < |items| => Erase(items[i])))
    case Nums(a, vs) => Nums(EraseAddr(a), vs)
    case Arr(_) => s
  }

  function AddrIds(a: Addr): multiset<nat> {
    if a.Null? then multiset{} else multiset{a.id}
  }

  /** The blocks a message owns, with multiplicity. */
  function Ids(m: Msg): multiset<nat>
    decreases m, 0
  {
    IdsFrom(m, 0)
  }

  function IdsFrom(m: Msg, i: nat): multiset<nat>
    requires i <= |m.slots|
    decreases m, 0, |m.slots| - i
  {
    if i == |m.slots| then multiset{} else SlotIds(m.slots[i]) + IdsFrom(m, i + 1)
  }

  function SlotIds(s: Slot): multiset<nat>
    decreases s
  {
    match s
    case Num(_) => multiset{}
    case Str(a, _) => AddrIds(a)
    case Sub(_, msg) => Ids(msg)
    case Msgs(a, items) => AddrIds(a) + ItemIds(items)
    case Nums(a, _) => AddrIds(a)
    case Arr(_) => multiset{}
  }

  function ItemIds(items: seq<Msg>): multiset<nat>
    decreases items
  {
    if items == [] then multiset{} else Ids(items[0]) + ItemIds(items[1..])
  }
}
