/** Which requests can be overrun by the second evaluation of MIN, and which never are. */
module KfifoOverrun {
  import opened Prelude
  import opened Kfifos
  import opened KfifoConcurrent

  ghost predicate NoPut(steps: seq<Step>) {
    forall step | step in steps :: !step.StartPut?
  }

  ghost predicate NoGet(steps: seq<Step>) {
    forall step | step in steps :: !step.StartGet?
  }

  // ---------- requests that are safe ----------

  /** The reader can still take bytes out: it is not about to overrun and has not overrun. */
  predicate ReaderLives(s: State) {
    match s.r
    case RSecond(len) => Data(s) <= len
    case ROverrun => false
    case _ => true
  }

  predicate WriterLives(s: State) {
    match s.w
    case WSecond(src) => Free(s) <= |src|
    case WOverrun => false
    case _ => true
  }

  /** The put in progress, if any, cannot overrun: it is past the evaluation, or asks for no less than the whole ring,
      or nobody will free a byte for it. */
  predicate PutSafe(s: State) {
    && !s.w.WOverrun?
    && (s.w.WSecond? ==> |s.w.src| >= s.size || (!ReaderLives(s) && Free(s) <= |s.w.src|))
  }

  predicate GetSafe(s: State) {
    && !s.r.ROverrun?
    && (s.r.RSecond? ==> s.r.len >= s.size || (!WriterLives(s) && Data(s) <= s.r.len))
  }

  lemma {:induction false} StaysSafe(s: State, steps: seq<Step>, t: State)
    requires Inv(s) && Run(s, steps, t)
    ensures PutSafe(s) && NoPut(steps) ==> PutSafe(t)
    ensures GetSafe(s) && NoGet(steps) ==> GetSafe(t)
    decreases |steps|
  {
    hide PutSafe, GetSafe;
    if steps != [] {
      var u := Apply(s, steps[0]).value;
      StepKeepsInv(s, steps[0], u);
      assert steps[0] in steps;
      PutStaysSafe(s, steps[0], u);
      GetStaysSafe(s, steps[0], u);
      StaysSafe(u, steps[1..], t);
    }
  }

  lemma PutStaysSafe(s: State, step: Step, t: State)
    requires Inv(s) && Apply(s, step) == Some(t) && Inv(t)
    ensures PutSafe(s) && !step.StartPut? ==> PutSafe(t)
  {
    FreeIs(s);
    FreeIs(t);
    hide Free, Data;
  }

  lemma GetStaysSafe(s: State, step: Step, t: State)
    requires Inv(s) && Apply(s, step) == Some(t) && Inv(t)
    ensures GetSafe(s) && !step.StartGet? ==> GetSafe(t)
  {
    FreeIs(s);
    FreeIs(t);
    hide Free, Data;
  }

  lemma Sized(s: State)
    requires Inv(s)
    ensures 0 < s.size == |s.buf|
  {
  }

  /** A put runs past its source only if a get is published after its first evaluation, and a get past its destination
      only if a put is. */
  lemma {:induction false} OverrunNeedsPublish(s: State, steps: seq<Step>, t: State)
    requires Inv(s) && Run(s, steps, t)
    ensures WriterLives(s) && t.w.WOverrun? ==> PublishGet in steps
    ensures ReaderLives(s) && t.r.ROverrun? ==> PublishPut in steps
    ensures WriterLives(s) && PublishGet !in steps ==> WriterLives(t)
    ensures ReaderLives(s) && PublishPut !in steps ==> ReaderLives(t)
    decreases |steps|
  {
    hide WriterLives, ReaderLives;
    if steps != [] {
      var u := Apply(s, steps[0]).value;
      StepKeepsInv(s, steps[0], u);
      assert steps[0] in steps;
      LivesOn(s, steps[0], u);
      OverrunNeedsPublish(u, steps[1..], t);
    }
    Overrun(t);
  }

  lemma Overrun(s: State)
    ensures s.w.WOverrun? ==> !WriterLives(s)
    ensures s.r.ROverrun? ==> !ReaderLives(s)
  {
  }

  lemma LivesOn(s: State, step: Step, t: State)
    requires Inv(s) && Apply(s, step) == Some(t) && Inv(t)
    ensures WriterLives(s) && !step.PublishGet? ==> WriterLives(t)
    ensures ReaderLives(s) && !step.PublishPut? ==> ReaderLives(t)
  {
    FreeIs(s);
    FreeIs(t);
    hide Free, Data;
  }

  // ---------- what a call moves ----------

  /** A put of src that found free bytes to be free when it began: what it copies is a prefix of src, no shorter than
      there was room for at the start. before is the history up to then. */
  ghost predicate PutGoing(before: seq<byte>, free: nat, src: seq<byte>, s: State) {
    match s.w
    case WSecond(x) => x == src && free <= |src| && s.put == before && free <= Free(s)
    case WCopy(data, _) => data <= src && Min(|src|, free) <= |data| && s.put == before
    case WIdle => exists n: nat :: PutMoved(before, free, src, s.put, n)
    case WOverrun => true
  }

  predicate PutMoved(before: seq<byte>, free: nat, src: seq<byte>, after: seq<byte>, n: nat) {
    Min(|src|, free) <= n <= |src| && after == before + src[..n]
  }

  lemma {:induction false} PutGoesOn(before: seq<byte>, free: nat, src: seq<byte>, s: State, steps: seq<Step>, t: State)
    requires Inv(s) && Run(s, steps, t) && NoPut(steps) && PutGoing(before, free, src, s)
    ensures PutGoing(before, free, src, t)
    decreases |steps|
  {
    hide PutGoing;
    if steps != [] {
      var u := Apply(s, steps[0]).value;
      StepKeepsInv(s, steps[0], u);
      assert steps[0] in steps;
      PutStep(before, free, src, s, steps[0], u);
      assert forall step | step in steps[1..] :: step in steps;
      PutGoesOn(before, free, src, u, steps[1..], t);
    }
  }

  lemma PutStep(before: seq<byte>, free: nat, src: seq<byte>, s: State, step: Step, t: State)
    requires Inv(s) && Apply(s, step) == Some(t) && Inv(t) && !step.StartPut? && PutGoing(before, free, src, s)
    ensures PutGoing(before, free, src, t)
  {
    FreeIs(s);
    FreeIs(t);
    hide Free, Data;
    if step.PublishPut? {
      assert PutMoved(before, free, src, t.put, |s.w.data|);
    }
  }

  /** A put that ends without an overrun has moved a prefix of its source: all of it if that is less than was free when
      it began, else at least as much as was free. */
  lemma PutMoves(s: State, src: seq<byte>, steps: seq<Step>, t: State)
    requires Inv(s) && s.w.WIdle? && |src| < U32 && NoPut(steps) && Run(s, [StartPut(src)] + steps, t) && t.w.WIdle?
    ensures exists n: nat :: PutMoved(s.put, Free(s), src, t.put, n)
  {
    var a := PutBegins(s, src, steps, t);
    hide Inv, Run, Free, Apply;
    PutGoesOn(s.put, Free(s), src, a, steps, t);
  }

  lemma PutBegins(s: State, src: seq<byte>, steps: seq<Step>, t: State) returns (a: State)
    requires Inv(s) && s.w.WIdle? && |src| < U32 && Run(s, [StartPut(src)] + steps, t)
    ensures Inv(a) && Run(a, steps, t) && PutGoing(s.put, Free(s), src, a)
  {
    a := Apply(s, StartPut(src)).value;
    StepKeepsInv(s, StartPut(src), a);
    assert ([StartPut(src)] + steps)[1..] == steps;
    FreeIs(s);
    hide Inv, Run, Data;
  }

  /** A get of len bytes that found data bytes when it began. */
  ghost predicate GetGoing(before: seq<byte>, data: nat, len: nat, s: State) {
    match s.r
    case RSecond(n) => n == len && data <= len && s.got == before && data <= Data(s)
    case RCopy(n, _) => Min(len, data) <= n <= len && s.got == before
    case RIdle => Min(len, data) <= |s.got| - |before| <= len && before <= s.got
    case _ => s.r.ROverrun?
  }

  lemma {:induction false} GetGoesOn(before: seq<byte>, data: nat, len: nat, s: State, steps: seq<Step>, t: State)
    requires Inv(s) && Run(s, steps, t) && NoGet(steps) && NoPeek(steps) && GetGoing(before, data, len, s)
    ensures GetGoing(before, data, len, t)
    decreases |steps|
  {
    hide GetGoing;
    if steps != [] {
      var u := Apply(s, steps[0]).value;
      StepKeepsInv(s, steps[0], u);
      assert steps[0] in steps;
      GetStep(before, data, len, s, steps[0], u);
      assert forall step | step in steps[1..] :: step in steps;
      GetGoesOn(before, data, len, u, steps[1..], t);
    }
  }

  ghost predicate NoPeek(steps: seq<Step>) {
    forall step | step in steps :: !step.StartPeek?
  }

  lemma GetStep(before: seq<byte>, data: nat, len: nat, s: State, step: Step, t: State)
    requires Inv(s) && Apply(s, step) == Some(t) && Inv(t) && GetGoing(before, data, len, s)
    requires !step.StartGet? && !step.StartPeek?
    ensures GetGoing(before, data, len, t)
  {
    FreeIs(s);
    FreeIs(t);
    hide Free, Data;
  }

  /** A get that ends without an overrun has delivered as many bytes as asked for if that is less than was stored when
      it began, else at least as many as were stored. Which bytes they are says Safety: got stays a prefix of put. */
  lemma GetMoves(s: State, len: nat, steps: seq<Step>, t: State)
    requires Inv(s) && s.r.RIdle? && len < U32 && NoGet(steps) && NoPeek(steps)
    requires Run(s, [StartGet(len)] + steps, t) && t.r.RIdle?
    ensures Min(len, Data(s)) <= |t.got| - |s.got| <= len && s.got <= t.got
  {
    var a := Apply(s, StartGet(len)).value;
    StepKeepsInv(s, StartGet(len), a);
    assert ([StartGet(len)] + steps)[1..] == steps;
    FreeIs(s);
    GetGoesOn(s.got, Data(s), len, a, steps, t);
  }

  /** A peek in progress, or the end of one. */
  ghost predicate PeekGoing(before: seq<byte>, n: nat, s: State) {
    (s.r.RPeek? ==> s.r.n == n && s.got == before) && !s.r.RCopy? && !s.r.RSecond?
  }

  lemma {:induction false} PeekGoesOn(before: seq<byte>, n: nat, s: State, steps: seq<Step>, t: State)
    requires Inv(s) && Run(s, steps, t) && NoGet(steps) && NoPeek(steps) && PeekGoing(before, n, s)
    ensures Inv(t) && PeekGoing(before, n, t)
    decreases |steps|
  {
    if steps != [] {
      var u := Apply(s, steps[0]).value;
      StepKeepsInv(s, steps[0], u);
      hide Inv;
      assert steps[0] in steps;
      assert forall step | step in steps[1..] :: step in steps;
      PeekGoesOn(before, n, u, steps[1..], t);
    }
  }

  /** A peek is for as many bytes as asked for and stored when it began, and what it has picked up are the oldest of
      them; the fill level does not shrink by it. */
  lemma PeekPicks(s: State, len: nat, steps: seq<Step>, t: State)
    requires Inv(s) && s.r.RIdle? && len < U32 && NoGet(steps) && NoPeek(steps)
    requires Run(s, [StartPeek(len)] + steps, t) && t.r.RPeek?
    ensures t.r.n == Min(len, Data(s)) && t.got == s.got && |s.got| <= |t.put| && t.r.dst <= t.put[|s.got|..]
  {
    var a := Apply(s, StartPeek(len)).value;
    StepKeepsInv(s, StartPeek(len), a);
    assert ([StartPeek(len)] + steps)[1..] == steps;
    PeekGoesOn(s.got, Min(len, Data(s)), a, steps, t);
    hide Run, Ring, Writing, Data;
    assert t.put[|s.got|..][..|t.r.dst|] == t.put[|s.got|..|s.got| + |t.r.dst|];
  }

  // ---------- the other side catching up ----------

  /** The get in progress can run to its end without the writer. */
  lemma {:induction false} FinishGet(s: State) returns (steps: seq<Step>, t: State)
    requires Inv(s) && s.r.RCopy?
    ensures Run(s, steps, t) && NoPut(steps) && Inv(t)
    ensures t.w == s.w && t.r == RIdle && t.put == s.put && t.size == s.size && |t.got| == |s.got| + s.r.n
    decreases s.r.n - |s.r.dst|
  {
    Sized(s);
    hide Run, Ring, Writing;
    if |s.r.dst| < s.r.n {
      var u := Apply(s, GetByte).value;
      StepKeepsInv(s, GetByte, u);
      One(s, GetByte, u);
      steps, t := FinishGet(u);
      RunAppend(s, [GetByte], u, steps, t);
      steps := [GetByte] + steps;
    } else {
      t := Apply(s, PublishGet).value;
      StepKeepsInv(s, PublishGet, t);
      One(s, PublishGet, t);
      steps := [PublishGet];
    }
  }

  lemma {:induction false} FinishPut(s: State) returns (steps: seq<Step>, t: State)
    requires Inv(s) && s.w.WCopy?
    ensures Run(s, steps, t) && NoGet(steps) && Inv(t)
    ensures t.r == s.r && t.w == WIdle && t.got == s.got && t.size == s.size && |t.put| == |s.put| + |s.w.data|
    decreases |s.w.data| - s.w.next
  {
    Sized(s);
    hide Run, Ring, Reading;
    if s.w.next < |s.w.data| {
      var u := Apply(s, PutByte).value;
      StepKeepsInv(s, PutByte, u);
      One(s, PutByte, u);
      steps, t := FinishPut(u);
      RunAppend(s, [PutByte], u, steps, t);
      steps := [PutByte] + steps;
    } else {
      t := Apply(s, PublishPut).value;
      StepKeepsInv(s, PublishPut, t);
      One(s, PublishPut, t);
      steps := [PublishPut];
    }
  }

  /** So can a peek. */
  lemma {:induction false} FinishPeek(s: State) returns (steps: seq<Step>, t: State)
    requires Inv(s) && s.r.RPeek?
    ensures Run(s, steps, t) && NoPut(steps) && Inv(t) && t == s.(r := RIdle)
    decreases s.r.n - |s.r.dst|
  {
    Sized(s);
    hide Run, Ring, Writing;
    if |s.r.dst| < s.r.n {
      var u := Apply(s, PeekByte).value;
      StepKeepsInv(s, PeekByte, u);
      One(s, PeekByte, u);
      steps, t := FinishPeek(u);
      RunAppend(s, [PeekByte], u, steps, t);
      steps := [PeekByte] + steps;
    } else {
      t := Apply(s, EndPeek).value;
      StepKeepsInv(s, EndPeek, t);
      One(s, EndPeek, t);
      steps := [EndPeek];
    }
  }

  /** An idle reader can empty the ring. */
  lemma DrainIdle(s: State) returns (steps: seq<Step>, t: State)
    requires Inv(s) && s.r.RIdle?
    ensures Run(s, steps, t) && NoPut(steps) && Inv(t) && t.w == s.w && t.size == s.size && Free(t) == s.size
  {
    Sized(s);
    hide Run, Ring, Writing, Reading;
    FreeIs(s);
    var n := Data(s);
    var a := Apply(s, StartGet(n)).value;
    One(s, StartGet(n), a);
    StepKeepsInv(s, StartGet(n), a);
    steps, t := DrainSecond(a);
    RunAppend(s, [StartGet(n)], a, steps, t);
    steps := [StartGet(n)] + steps;
  }

  /** So can one whose second evaluation is still to come and will not exceed its request. */
  lemma DrainSecond(s: State) returns (steps: seq<Step>, t: State)
    requires Inv(s) && s.r.RSecond? && Data(s) <= s.r.len
    ensures Run(s, steps, t) && NoPut(steps) && Inv(t) && t.w == s.w && t.size == s.size && Free(t) == s.size
  {
    Sized(s);
    hide Run, Ring, Writing, Reading;
    FreeIs(s);
    var a := Apply(s, SecondData).value;
    One(s, SecondData, a);
    StepKeepsInv(s, SecondData, a);
    steps, t := FinishGet(a);
    RunAppend(s, [SecondData], a, steps, t);
    steps := [SecondData] + steps;
    FreeIs(t);
  }

  /** Every reader that has not overrun and is not about to can empty the ring, also one in the middle of a copy. */
  lemma Drain(s: State) returns (steps: seq<Step>, t: State)
    requires Inv(s) && ReaderLives(s)
    ensures Run(s, steps, t) && NoPut(steps) && Inv(t) && t.w == s.w && t.size == s.size && Free(t) == s.size
  {
    hide Run, Inv, Apply, Data, Free;
    match s.r
    case RIdle => steps, t := DrainIdle(s);
    case RSecond(_) => steps, t := DrainSecond(s);
    case RCopy(_, _) =>
      var first, a := FinishGet(s);
      steps, t := DrainIdle(a);
      RunAppend(s, first, a, steps, t);
      steps := first + steps;
    case RPeek(_, _) =>
      var first, a := FinishPeek(s);
      steps, t := DrainIdle(a);
      RunAppend(s, first, a, steps, t);
      steps := first + steps;
  }

  /** An idle writer can fill the ring. */
  lemma FillIdle(s: State) returns (steps: seq<Step>, t: State)
    requires Inv(s) && s.w.WIdle?
    ensures Run(s, steps, t) && NoGet(steps) && Inv(t) && t.r == s.r && t.size == s.size && Data(t) == s.size
  {
    Sized(s);
    hide Run, Ring, Writing, Reading;
    FreeIs(s);
    var src := seq(Free(s), _ => 0);
    var a := Apply(s, StartPut(src)).value;
    One(s, StartPut(src), a);
    StepKeepsInv(s, StartPut(src), a);
    steps, t := FillSecond(a);
    RunAppend(s, [StartPut(src)], a, steps, t);
    steps := [StartPut(src)] + steps;
  }

  lemma FillSecond(s: State) returns (steps: seq<Step>, t: State)
    requires Inv(s) && s.w.WSecond? && Free(s) <= |s.w.src|
    ensures Run(s, steps, t) && NoGet(steps) && Inv(t) && t.r == s.r && t.size == s.size && Data(t) == s.size
  {
    Sized(s);
    hide Run, Ring, Writing, Reading;
    FreeIs(s);
    var a := Apply(s, SecondFree).value;
    One(s, SecondFree, a);
    StepKeepsInv(s, SecondFree, a);
    steps, t := FinishPut(a);
    RunAppend(s, [SecondFree], a, steps, t);
    steps := [SecondFree] + steps;
    FreeIs(t);
  }

  /** Every writer that has not overrun and is not about to can fill the ring, also one in the middle of a copy. */
  lemma Fill(s: State) returns (steps: seq<Step>, t: State)
    requires Inv(s) && WriterLives(s)
    ensures Run(s, steps, t) && NoGet(steps) && Inv(t) && t.r == s.r && t.size == s.size && Data(t) == s.size
  {
    hide Run, Inv, Apply, Data, Free;
    match s.w
    case WIdle => steps, t := FillIdle(s);
    case WSecond(_) => steps, t := FillSecond(s);
    case WCopy(_, _) =>
      var first, a := FinishPut(s);
      steps, t := FillIdle(a);
      RunAppend(s, first, a, steps, t);
      steps := first + steps;
  }

  // ---------- the exact condition ----------

  ghost predicate PutOverruns(s: State, src: seq<byte>, steps: seq<Step>, t: State) {
    NoPut(steps) && Run(s, [StartPut(src)] + steps, t) && t.w.WOverrun?
  }

  ghost predicate GetOverruns(s: State, len: nat, steps: seq<Step>, t: State) {
    NoGet(steps) && Run(s, [StartGet(len)] + steps, t) && t.r.ROverrun?
  }

  /** Whatever the reader is doing, a put can be overrun exactly when it asks for at least the free space but for less
      than the whole ring and the reader is still able to take bytes out. */
  lemma PutOverrunCondition(s: State, src: seq<byte>)
    requires Inv(s) && s.w.WIdle? && |src| < U32
    ensures (exists steps, t :: PutOverruns(s, src, steps, t)) <==> Free(s) <= |src| < s.size && ReaderLives(s)
  {
    FreeIs(s);
    var a := Apply(s, StartPut(src)).value;
    StepKeepsInv(s, StartPut(src), a);
    if Free(s) <= |src| < s.size && ReaderLives(s) {
      PutOverrunHappens(s, src, a);
    } else {
      forall steps, t | PutOverruns(s, src, steps, t) ensures false {
        assert ([StartPut(src)] + steps)[1..] == steps;
        StaysSafe(a, steps, t);
      }
    }
  }

  lemma PutOverrunHappens(s: State, src: seq<byte>, a: State)
    requires Inv(s) && s.w.WIdle? && Free(s) <= |src| < s.size && |src| < U32 && ReaderLives(a)
    requires Apply(s, StartPut(src)) == Some(a) && Inv(a)
    ensures exists steps, t :: PutOverruns(s, src, steps, t)
  {
    Sized(s);
    hide Run, Inv, Free, ReaderLives;
    var drain, b := Drain(a);
    var c := b.(w := WOverrun);
    SecondOverruns(b, src);
    One(s, StartPut(src), a); One(b, SecondFree, c);
    RunAppend(a, drain, b, [SecondFree], c);
    RunAppend(s, [StartPut(src)], a, drain + [SecondFree], c);
    assert PutOverruns(s, src, drain + [SecondFree], c);
  }

  lemma SecondOverruns(b: State, src: seq<byte>)
    requires Inv(b) && b.w == WSecond(src) && Free(b) == b.size > |src|
    ensures 0 < b.size == |b.buf| && Apply(b, SecondFree) == Some(b.(w := WOverrun))
  {
  }

  /** Whatever the writer is doing, a get can be overrun exactly when it asks for at least what is stored but for less
      than the whole ring and the writer is still able to put bytes in. */
  lemma GetOverrunCondition(s: State, len: nat)
    requires Inv(s) && s.r.RIdle? && len < U32
    ensures (exists steps, t :: GetOverruns(s, len, steps, t)) <==> Data(s) <= len < s.size && WriterLives(s)
  {
    FreeIs(s);
    var a := Apply(s, StartGet(len)).value;
    StepKeepsInv(s, StartGet(len), a);
    if Data(s) <= len < s.size && WriterLives(s) {
      GetOverrunHappens(s, len, a);
    } else {
      forall steps, t | GetOverruns(s, len, steps, t) ensures false {
        assert ([StartGet(len)] + steps)[1..] == steps;
        StaysSafe(a, steps, t);
      }
    }
  }

  lemma GetOverrunHappens(s: State, len: nat, a: State)
    requires Inv(s) && s.r.RIdle? && Data(s) <= len < s.size && len < U32 && WriterLives(a)
    requires Apply(s, StartGet(len)) == Some(a) && Inv(a)
    ensures exists steps, t :: GetOverruns(s, len, steps, t)
  {
    Sized(s);
    hide Run, Inv, Data, WriterLives;
    var fill, b := Fill(a);
    var c := b.(r := ROverrun);
    SecondDataOverruns(b, len);
    One(s, StartGet(len), a); One(b, SecondData, c);
    RunAppend(a, fill, b, [SecondData], c);
    RunAppend(s, [StartGet(len)], a, fill + [SecondData], c);
    assert GetOverruns(s, len, fill + [SecondData], c);
  }

  lemma SecondDataOverruns(b: State, len: nat)
    requires Inv(b) && b.r == RSecond(len) && Data(b) == b.size > len
    ensures 0 < b.size == |b.buf| && Apply(b, SecondData) == Some(b.(r := ROverrun))
  {
  }

  /** A caller that asks for less than kfifo_data_size, or kfifo_unused, has reported to it before cannot be overrun. */
  lemma LessThanReported(s: State, steps: seq<Step>, t: State, len: nat, src: seq<byte>)
    requires Inv(s) && Run(s, steps, t) && len < U32 && |src| < U32
    ensures t.r.RIdle? && PublishGet !in steps && len < Data(s) ==> !exists more, u :: GetOverruns(t, len, more, u)
    ensures t.w.WIdle? && PublishPut !in steps && |src| < Free(s) ==> !exists more, u :: PutOverruns(t, src, more, u)
  {
    hide Inv, Data, Free, GetOverruns, PutOverruns;
    RunKeepsInv(s, steps, t);
    ReportsStay(s, steps, t);
    if t.r.RIdle? { GetOverrunCondition(t, len); }
    if t.w.WIdle? { PutOverrunCondition(t, src); }
  }

  /** From the empty ring of two bytes a get of one byte can already be overrun. */
  lemma OverrunHappens(s: State)
    requires Init(s) && s.size == 2
    ensures Inv(s) && exists steps, t :: GetOverruns(s, 1, steps, t)
  {
    FreeIs(s);
    GetOverrunCondition(s, 1);
  }
}
