/** The allocator as a ledger of live blocks, and what a message owns. */
module Ledger {
  import opened Schema

  /** The C heap behind pb_realloc and pb_free. Requests may be refused at any time, blocks may move. */
  class Heap {
    ghost var live: multiset<nat>
    var next: nat
    var refusals: nat

    /** No block is live twice and fresh addresses are really fresh. */
    ghost predicate Valid()
      reads this
    {
      forall id: nat :: live[id] <= 1 && (live[id] > 0 ==> id < next)
    }

    constructor ()
      ensures Valid() && live == multiset{} && refusals == 0
    {
      live, next, refusals := multiset{}, 0, 0;
    }

    /** realloc: the old block, if any, must be live; on refusal it stays. */
    method Realloc(a: Addr, size: nat) returns (ok: bool, b: Addr)
      requires Valid() && AddrIds(a) <= live && size > 0
      modifies this
      ensures Valid() && live + AddrIds(a) == old(live) + AddrIds(b)
      ensures if ok then b.At? && refusals == old(refusals)
              else b == a && refusals == old(refusals) + 1 && live == old(live)
    {
      var granted: bool := *;
      if !granted { refusals := refusals + 1; return false, a; }
      var moved: bool := *;
      if a.At? && !moved { return true, a; }
      b := At(next);
      live := live - AddrIds(a) + AddrIds(b);
      next := next + 1;
      ok := true;
    }

    /** free: a block can be freed only while it is live, so never twice. */
    method Free(a: Addr)
      requires Valid() && AddrIds(a) <= live
      modifies this
      ensures Valid() && live + AddrIds(a) == old(live) && refusals == old(refusals)
    {
      live := live - AddrIds(a);
    }
  }

  // ---------- ownership under update ----------

  lemma {:induction false} SlotOwned(m: Msg, j: nat, i: nat)
    requires j <= i < |m.slots|
    ensures SlotIds(m.slots[i]) <= IdsFrom(m, j)
    decreases i - j
  {
    hide SlotIds;
    if j < i { SlotOwned(m, j + 1, i); }
  }

  lemma {:induction false} IdsFromUpdate(m: Msg, j: nat, i: nat, s: Slot)
    requires j <= |m.slots| && i < |m.slots|
    ensures j <= i ==> IdsFrom(Msg(m.slots[i := s]), j) + SlotIds(m.slots[i]) == IdsFrom(m, j) + SlotIds(s)
    ensures j > i ==> IdsFrom(Msg(m.slots[i := s]), j) == IdsFrom(m, j)
    decreases |m.slots| - j
  {
    hide SlotIds;
    var n := Msg(m.slots[i := s]);
    if j < |m.slots| {
      IdsFromUpdate(m, j + 1, i, s);
      ExchangeIds(SlotIds(m.slots[j]), IdsFrom(m, j + 1), IdsFrom(n, j + 1), SlotIds(m.slots[i]), SlotIds(s));
      assert IdsFrom(n, j) == SlotIds(n.slots[j]) + IdsFrom(n, j + 1);
      assert IdsFrom(m, j) == SlotIds(m.slots[j]) + IdsFrom(m, j + 1);
    }
  }

  lemma ExchangeIds(x: multiset<nat>, a: multiset<nat>, b: multiset<nat>, u: multiset<nat>, v: multiset<nat>)
    ensures b + u == a + v ==> (x + b) + u == (x + a) + v
    ensures (v + a) + u == (u + a) + v
  {
    assert (x + b) + u == x + (b + u) && (x + a) + v == x + (a + v);
  }

  lemma Cancel(a: multiset<nat>, b: multiset<nat>, x: multiset<nat>)
    requires a + x == b + x
    ensures a == b
  {
    forall e ensures a[e] == b[e] { assert (a + x)[e] == (b + x)[e]; }
  }

  lemma Widen(l1: multiset<nat>, x: multiset<nat>, l0: multiset<nat>, y: multiset<nat>, z: multiset<nat>)
    requires l1 + x == l0 + y && x + z <= l0
    ensures l1 + (x + z) == l0 + (y + z) && y + z <= l1
  {
    forall e ensures (l1 + (x + z))[e] == (l0 + (y + z))[e] && (y + z)[e] <= l1[e] {
      assert (l1 + x)[e] == (l0 + y)[e] && (x + z)[e] <= l0[e];
    }
  }

  lemma {:induction false} ItemIdsAppend(xs: seq<Msg>, y: Msg)
    ensures ItemIds(xs + [y]) == ItemIds(xs) + Ids(y)
  {
    if xs == [] {
      assert [y][1..] == [];
    } else {
      assert (xs + [y])[1..] == xs[1..] + [y];
      ItemIdsAppend(xs[1..], y);
    }
  }

  /** A structure at its defaults owns nothing. */
  lemma {:induction false} DefaultOwnsNothing(env: Env, k: nat, i: nat)
    requires EnvOk(env) && k < |env| && i <= |env[k]|
    ensures IdsFrom(Default(env, k), i) == multiset{}
    decreases k, |env[k]| - i
  {
    if i < |env[k]| {
      assert DescOk(env, k);
      DefaultOwnsNothing(env, k, i + 1);
      assert Default(env, k).slots[i] == DefaultSlot(env, k, env[k][i].kind);
      match env[k][i].kind
      case OptMsg(sub) => DefaultOwnsNothing(env, sub, 0); assert SlotIds(Default(env, k).slots[i]) == multiset{};
      case _ =>
    }
  }

  // ---------- erasure ----------

  lemma {:induction false} EraseKeepsOk(env: Env, k: nat, m: Msg)
    requires k < |env|
    ensures MsgOk(env, k, m) <==> MsgOk(env, k, Erase(m))
    decreases m, 1
  {
    if |m.slots| == |env[k]| {
      forall i | 0 <= i < |m.slots|
        ensures SlotOk(env, env[k][i].kind, m.slots[i]) <==> SlotOk(env, env[k][i].kind, Erase(m).slots[i])
      {
        EraseSlotKeepsOk(env, env[k][i].kind, m.slots[i]);
      }
    }
  }

  lemma {:induction false} EraseSlotKeepsOk(env: Env, kind: Kind, s: Slot)
    ensures SlotOk(env, kind, s) <==> SlotOk(env, kind, EraseSlot(s))
    decreases s, 0
  {
    match s
    case Sub(_, msg) => if kind.OptMsg? && kind.sub < |env| { EraseKeepsOk(env, kind.sub, msg); }
    case Msgs(a, items) =>
      if kind.PtrMsgs? && kind.sub < |env| {
        forall i | 0 <= i < |items|
          ensures MsgOk(env, kind.sub, items[i]) <==> MsgOk(env, kind.sub, EraseSlot(s).items[i])
        {
          EraseKeepsOk(env, kind.sub, items[i]);
        }
      }
    case _ =>
  }

  /** The defaults carry no block identities. */
  lemma {:induction false} EraseDefault(env: Env, k: nat)
    requires k < |env| && EnvOk(env)
    ensures Erase(Default(env, k)) == Default(env, k)
    decreases k
  {
    var m := Default(env, k);
    forall i | 0 <= i < |m.slots| ensures EraseSlot(m.slots[i]) == m.slots[i] {
      assert DescOk(env, k);
      assert m.slots[i] == DefaultSlot(env, k, env[k][i].kind);
      match env[k][i].kind
      case OptMsg(sub) => EraseDefault(env, sub);
      case PtrMsgs(_) => assert |EraseSlot(Msgs(Null, [])).items| == 0;
      case _ =>
    }
    assert Erase(m).slots == m.slots;
  }

  lemma EraseUpdate(m: Msg, i: nat, s: Slot)
    requires i < |m.slots|
    ensures Erase(Msg(m.slots[i := s])) == Msg(Erase(m).slots[i := EraseSlot(s)])
  {
    assert Erase(Msg(m.slots[i := s])).slots == Erase(m).slots[i := EraseSlot(s)];
  }
}
