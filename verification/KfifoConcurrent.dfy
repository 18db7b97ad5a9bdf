/** The unlocked kfifo of ql_fifo.h with one writer and one reader, interleaved one memory access at a time under
    sequential consistency. MIN evaluates its second argument twice. */
module KfifoConcurrent {
  import opened Prelude
  import opened Kfifos

  /** Where kfifo_put stands: between the two evaluations of MIN, copying, or past the end of its source. */
  datatype Writer =
    | WIdle
    | WSecond(src: seq<byte>)
    | WCopy(data: seq<byte>, next: nat)
    | WOverrun

  /** Where kfifo_get or kfifo_out_peek stands. */
  datatype Reader =
    | RIdle
    | RSecond(len: nat)
    | RCopy(n: nat, dst: seq<byte>)
    | RPeek(n: nat, dst: seq<byte>)
    | ROverrun

  /** The shared memory, both program counters, and the history of bytes published by put and by get. */
  datatype State = State(size: nat, buf: seq<byte>, inn: nat, out: nat, w: Writer, r: Reader,
                         put: seq<byte>, got: seq<byte>)

  datatype Step =
    | StartPut(src: seq<byte>) | SecondFree | PutByte | PublishPut
    | StartGet(len: nat) | SecondData | GetByte | PublishGet
    | StartPeek(len: nat) | PeekByte | EndPeek

  /** The slot i bytes past a counter. */
  function Slot(counter: nat, i: nat, size: nat): nat
    requires size > 0
  {
    (counter + i) % size
  }

  function Free(s: State): nat { (s.size - s.inn + s.out) % U32 }

  function Data(s: State): nat { Sub32(s.inn, s.out) }

  /** One atomic step; None if it is not the side's turn to do that. */
  function Apply(s: State, step: Step): Option<State>
    requires 0 < s.size == |s.buf|
  {
    match step
    case StartPut(src) =>
      if !s.w.WIdle? || |src| >= U32 then None
      else if |src| < Free(s) then Some(s.(w := WCopy(src, 0)))
      else Some(s.(w := WSecond(src)))
    case SecondFree =>
      if !s.w.WSecond? then None
      else if Free(s) > |s.w.src| then Some(s.(w := WOverrun))
      else Some(s.(w := WCopy(s.w.src[..Free(s)], 0)))
    case PutByte =>
      if !s.w.WCopy? || s.w.next >= |s.w.data| then None
      else Some(s.(buf := s.buf[Slot(s.inn, s.w.next, s.size) := s.w.data[s.w.next]], w := s.w.(next := s.w.next + 1)))
    case PublishPut =>
      if !s.w.WCopy? || s.w.next < |s.w.data| then None
      else Some(s.(inn := (s.inn + |s.w.data|) % U32, w := WIdle, put := s.put + s.w.data))
    case StartGet(len) =>
      if !s.r.RIdle? || len >= U32 then None
      else if len < Data(s) then Some(s.(r := RCopy(len, [])))
      else Some(s.(r := RSecond(len)))
    case SecondData =>
      if !s.r.RSecond? then None
      else if Data(s) > s.r.len then Some(s.(r := ROverrun))
      else Some(s.(r := RCopy(Data(s), [])))
    case GetByte =>
      if !s.r.RCopy? || |s.r.dst| >= s.r.n then None
      else Some(s.(r := RCopy(s.r.n, s.r.dst + [s.buf[Slot(s.out, |s.r.dst|, s.size)]])))
    case PublishGet =>
      if !s.r.RCopy? || |s.r.dst| < s.r.n then None
      else Some(s.(out := (s.out + s.r.n) % U32, r := RIdle, got := s.got + s.r.dst))
    case StartPeek(len) =>
      if !s.r.RIdle? || len >= U32 then None
      else Some(s.(r := RPeek(Min(len, Data(s)), [])))
    case PeekByte =>
      if !s.r.RPeek? || |s.r.dst| >= s.r.n then None
      else Some(s.(r := RPeek(s.r.n, s.r.dst + [s.buf[Slot(s.out, |s.r.dst|, s.size)]])))
    case EndPeek =>
      if !s.r.RPeek? || |s.r.dst| < s.r.n then None
      else Some(s.(r := RIdle))
  }

  ghost predicate Init(s: State) {
    && RingSize(s.size) && |s.buf| == s.size && s.inn == s.out == 0
    && s.w == WIdle && s.r == RIdle && s.put == s.got == []
  }

  /** Counters are the history lengths modulo 2^32, unread bytes lie in the ring, copies in progress stay in their
      region. */
  ghost predicate Inv(s: State) {
    && Ring(s)
    && (s.w.WCopy? ==> Writing(s, s.w.data, s.w.next))
    && (s.r.RCopy? || s.r.RPeek? ==> Reading(s, s.r.n, s.r.dst))
  }

  ghost predicate Ring(s: State) {
    && RingSize(s.size) && |s.buf| == s.size
    && |s.got| <= |s.put| <= |s.got| + s.size
    && s.inn == |s.put| % U32 && s.out == |s.got| % U32
    && s.got <= s.put
    && forall i | |s.got| <= i < |s.put| :: s.buf[i % s.size] == s.put[i]
  }

  ghost predicate Writing(s: State, data: seq<byte>, next: nat)
    requires 0 < s.size == |s.buf|
  {
    && next <= |data| && |s.put| + |data| <= |s.got| + s.size
    && forall i | 0 <= i < next :: s.buf[Slot(|s.put|, i, s.size)] == data[i]
  }

  ghost predicate Reading(s: State, n: nat, dst: seq<byte>) {
    && |dst| <= n && |s.got| + n <= |s.put|
    && dst == s.put[|s.got|..|s.got| + |dst|]
  }

  lemma FreeIs(s: State)
    requires Ring(s)
    ensures Free(s) == |s.got| + s.size - |s.put| && Data(s) == |s.put| - |s.got|
  {
    FreeSpace(s.size, |s.put|, |s.got|);
    Difference(|s.put|, |s.got|);
  }

  /** Every step keeps the invariant. */
  lemma StepKeepsInv(s: State, step: Step, t: State)
    requires Inv(s) && Apply(s, step) == Some(t)
    ensures Inv(t)
  {
    FreeIs(s);
    match step
    case PutByte => PutByteKeeps(s, t);
    case PublishPut => PublishPutKeeps(s, t);
    case GetByte => ReadByteKeeps(s, step, t);
    case PeekByte => ReadByteKeeps(s, step, t);
    case PublishGet => PublishGetKeeps(s, t);
    case _ =>
  }

  lemma PutByteKeeps(s: State, t: State)
    requires Inv(s) && Apply(s, PutByte) == Some(t)
    ensures Inv(t)
  {
    var j, at := s.w.next, |s.put| + s.w.next;
    SlotOfImage(|s.put|, j, s.size);
    forall i | |s.got| <= i < |s.put| ensures t.buf[i % s.size] == s.buf[i % s.size] {
      DifferentSlots(i, at, s.size);
    }
    forall i | 0 <= i < j ensures t.buf[Slot(|s.put|, i, s.size)] == s.buf[Slot(|s.put|, i, s.size)] {
      DifferentSlots(|s.put| + i, at, s.size);
    }
  }

  lemma PublishPutKeeps(s: State, t: State)
    requires Inv(s) && Apply(s, PublishPut) == Some(t)
    ensures Inv(t)
  {
    KfifoAdvance(|s.put|, |s.w.data|);
    forall i | |s.put| <= i < |t.put| ensures t.buf[i % s.size] == t.put[i] {
      assert t.buf[Slot(|s.put|, i - |s.put|, s.size)] == s.w.data[i - |s.put|];
    }
    if s.r.RCopy? || s.r.RPeek? { assert s.r.dst == t.put[|s.got|..|s.got| + |s.r.dst|]; }
  }

  lemma ReadByteKeeps(s: State, step: Step, t: State)
    requires Inv(s) && (step.GetByte? || step.PeekByte?) && Apply(s, step) == Some(t)
    ensures Inv(t)
  {
    NextByte(s, s.r.n, s.r.dst);
    SameRing(s, t);
    hide Ring, Writing, Slot;
  }

  /** The reader picks up the byte it should. */
  lemma NextByte(s: State, n: nat, dst: seq<byte>)
    requires Ring(s) && Reading(s, n, dst) && |dst| < n
    ensures Reading(s, n, dst + [s.buf[Slot(s.out, |dst|, s.size)]])
  {
    var at := |s.got| + |dst|;
    SlotOfImage(|s.got|, |dst|, s.size);
    assert s.buf[Slot(s.out, |dst|, s.size)] == s.put[at];
    hide Ring, Slot;
    assert s.put[|s.got|..at + 1] == s.put[|s.got|..at] + [s.put[at]];
  }

  /** The reader's own progress changes nothing else. */
  lemma SameRing(s: State, t: State)
    requires Ring(s) && t == s.(r := t.r)
    ensures Ring(t) && forall data, next | Writing(s, data, next) :: Writing(t, data, next)
    ensures forall n, dst | Reading(s, n, dst) :: Reading(t, n, dst)
  {
  }

  lemma PublishGetKeeps(s: State, t: State)
    requires Inv(s) && Apply(s, PublishGet) == Some(t)
    ensures Inv(t)
  {
    KfifoAdvance(|s.got|, s.r.n);
    assert s.put[..|s.got| + s.r.n] == s.put[..|s.got|] + s.put[|s.got|..|s.got| + s.r.n];
  }

  lemma KfifoAdvance(x: nat, n: nat)
    ensures (x % U32 + n) % U32 == (x + n) % U32
  {
    Advance(x, n);
  }

  // ---------- all runs ----------

  /** t is reached from s by the given steps. */
  ghost predicate Run(s: State, steps: seq<Step>, t: State)
    decreases |steps|
  {
    if steps == [] then s == t
    else 0 < s.size == |s.buf| && Apply(s, steps[0]).Some? && Run(Apply(s, steps[0]).value, steps[1..], t)
  }

  lemma {:induction false} RunKeepsInv(s: State, steps: seq<Step>, t: State)
    requires Inv(s) && Run(s, steps, t)
    ensures Inv(t)
    decreases |steps|
  {
    if steps != [] {
      StepKeepsInv(s, steps[0], Apply(s, steps[0]).value);
      RunKeepsInv(Apply(s, steps[0]).value, steps[1..], t);
    }
  }

  /** The slots still to be written by the put in progress are not among those still to be read by the get. */
  ghost predicate Apart(s: State) {
    && s.size > 0
    && (s.w.WCopy? && (s.r.RCopy? || s.r.RPeek?) ==>
      forall i, j | s.w.next <= i < |s.w.data| && |s.r.dst| <= j < s.r.n ::
        Slot(s.inn, i, s.size) != Slot(s.out, j, s.size))
  }

  /** However put, get and peek interleave and however often the counters wrap: the fill level stays within the ring,
      what was got is a prefix of what was put, also with the bytes being copied, and no slot is read while being
      written. */
  lemma Safety(s: State, steps: seq<Step>, t: State)
    requires Init(s) && Run(s, steps, t)
    ensures Sub32(t.inn, t.out) == |t.put| - |t.got| <= t.size
    ensures t.got <= t.put && Apart(t)
    ensures t.r.RCopy? || t.r.RPeek? ==> t.got + t.r.dst <= t.put
  {
    RunKeepsInv(s, steps, t);
    FreeIs(t);
    StaysApart(t);
    if t.r.RCopy? || t.r.RPeek? { assert t.put[..|t.got| + |t.r.dst|] == t.got + t.r.dst; }
  }

  lemma StaysApart(s: State)
    requires Inv(s)
    ensures Apart(s)
  {
    hide Slot;
    if s.w.WCopy? && (s.r.RCopy? || s.r.RPeek?) {
      forall i, j | s.w.next <= i < |s.w.data| && |s.r.dst| <= j < s.r.n
        ensures Slot(s.inn, i, s.size) != Slot(s.out, j, s.size)
      {
        SlotsApart(|s.put|, i, |s.got|, j, s.size);
      }
    }
  }

  lemma SlotsApart(put: nat, i: nat, got: nat, j: nat, size: nat)
    requires RingSize(size) && got + j < put + i < got + j + size
    ensures Slot(put % U32, i, size) != Slot(got % U32, j, size)
  {
    SlotOfImage(put, i, size);
    SlotOfImage(got, j, size);
    DifferentSlots(got + j, put + i, size);
  }

  lemma {:induction false} HistoriesGrow(s: State, steps: seq<Step>, t: State)
    requires Inv(s) && Run(s, steps, t)
    ensures Inv(t) && s.put <= t.put && s.got <= t.got && t.size == s.size
    decreases |steps|
  {
    hide Inv;
    if steps != [] {
      var u := Apply(s, steps[0]).value;
      StepKeepsInv(s, steps[0], u);
      HistoriesGrow(u, steps[1..], t);
    }
  }

  /** What a peek has delivered is what gets deliver later, whatever happens in between. */
  lemma PeekedIsGotLater(s: State, steps: seq<Step>, t: State)
    requires Inv(s) && s.r.RPeek? && Run(s, steps, t) && |s.got| + |s.r.dst| <= |t.got|
    ensures t.got[|s.got|..|s.got| + |s.r.dst|] == s.r.dst
  {
    hide Run, Writing, Slot;
    HistoriesGrow(s, steps, t);
    SameStretch(t.got, t.put, |s.got|, |s.got| + |s.r.dst|);
    SameStretch(s.put, t.put, |s.got|, |s.got| + |s.r.dst|);
  }

  lemma SameStretch(x: seq<byte>, y: seq<byte>, lo: nat, hi: nat)
    requires x <= y && lo <= hi <= |x|
    ensures x[lo..hi] == y[lo..hi]
  {
  }

  /** kfifo_data_size and kfifo_unused, each one read of the other side's counter: until the caller itself takes bytes
      out, respectively puts bytes in, at least what they report stays stored or free. */
  lemma {:induction false} ReportsStay(s: State, steps: seq<Step>, t: State)
    requires Inv(s) && Run(s, steps, t)
    ensures PublishGet !in steps ==> Data(s) <= Data(t)
    ensures PublishPut !in steps ==> Free(s) <= Free(t)
    decreases |steps|
  {
    hide Inv, Free, Data;
    if steps != [] {
      var u := Apply(s, steps[0]).value;
      StepKeepsInv(s, steps[0], u);
      StepReports(s, steps[0], u);
      assert steps[0] in steps;
      ReportsStay(u, steps[1..], t);
    }
  }

  lemma StepReports(s: State, step: Step, t: State)
    requires Inv(s) && Apply(s, step) == Some(t) && Inv(t)
    ensures Data(s) <= Data(t) || step.PublishGet?
    ensures Free(s) <= Free(t) || step.PublishPut?
  {
    FreeIs(s);
    FreeIs(t);
    hide Free, Data;
  }

  /** The evaluated counts are the true free space and fill level, and the histories grow by exactly what
      is published. */
  lemma CountsAreExact(s: State, step: Step, t: State)
    requires Inv(s) && Apply(s, step) == Some(t)
    ensures Free(s) == s.size - (|s.put| - |s.got|) && Data(s) == |s.put| - |s.got|
    ensures t.put == if step.PublishPut? then s.put + s.w.data else s.put
    ensures t.got == if step.PublishGet? then s.got + s.put[|s.got|..|s.got| + s.r.n] else s.got
  {
    FreeIs(s);
    hide Ring, Writing, Free, Data;
  }

  // ---------- the second evaluation ----------

  /** What the other side publishes in between is all that can change the count between the two evaluations. */
  lemma CountBetweenEvaluations(s: State, step: Step, t: State)
    requires Inv(s) && Apply(s, step) == Some(t)
    ensures s.w.WSecond? && t.w.WSecond? ==> Free(t) == Free(s) + if step.PublishGet? then s.r.n else 0
    ensures s.r.RSecond? && t.r.RSecond? ==> Data(t) == Data(s) + if step.PublishPut? then |s.w.data| else 0
  {
    StepKeepsInv(s, step, t);
    FreeIs(s);
    FreeIs(t);
  }

  lemma One(s: State, step: Step, t: State)
    requires 0 < s.size == |s.buf| && Apply(s, step) == Some(t)
    ensures Run(s, [step], t)
  {
    assert [step][1..] == [];
  }

  lemma {:induction false} RunAppend(s: State, xs: seq<Step>, t: State, ys: seq<Step>, u: State)
    requires Run(s, xs, t) && Run(t, ys, u)
    ensures Run(s, xs + ys, u)
    decreases |xs|
  {
    hide Apply;
    if xs == [] {
      assert xs + ys == ys;
    } else {
      assert (xs + ys)[1..] == xs[1..] + ys;
      RunAppend(Apply(s, xs[0]).value, xs[1..], t, ys, u);
    }
  }
}
