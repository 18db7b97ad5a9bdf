/** What pb_encode writes, cut into single writes and nested payloads, and how far it gets in a stream of
    32-bit sizes. */
module Pieces {
  import opened Prelude

  /** One call of pb_write, a submessage written through a substream, or a point where the encoder gives up. */
  datatype Piece = Raw(bs: bytes) | Nested(ps: seq<Piece>) | Stop

  function FlatPiece(p: Piece): bytes
    decreases p
  {
    match p
    case Raw(bs) => bs
    case Nested(ps) => Flat(ps)
    case Stop => []
  }

  /** All bytes, in order. */
  function Flat(ps: seq<Piece>): bytes
    decreases ps
  {
    if ps == [] then [] else FlatPiece(ps[0]) + Flat(ps[1..])
  }

  /** The encoder does not give up anywhere. */
  predicate Whole(ps: seq<Piece>)
    decreases ps
  {
    ps == [] || (!ps[0].Stop? && (ps[0].Nested? ==> Whole(ps[0].ps)) && Whole(ps[1..]))
  }

  /** Everything is written, a size check refuses, or a write goes past the memory that the root stream was given. */
  datatype Fate = Fits | Full | Over

  /** A piece meets a stream with w bytes written of at most max, and room bytes of memory before the root stream's end.
      pb_write refuses what exceeds max. pb_encode_submessage compares a sum and a size that are both cut to 32 bits. */
  function FateOf(p: Piece, w: nat, room: nat, max: nat): (f: Fate)
    ensures f.Fits? ==> |FlatPiece(p)| <= room
    decreases p
  {
    match p
    case Raw(bs) => if w + |bs| > max then Full else if |bs| > room then Over else Fits
    case Nested(ps) =>
      var size := |Flat(ps)| % U32;
      if (w + size) % U32 > max then Full else Fates(ps, 0, room, size)
    case Stop => Full
  }

  function Fates(ps: seq<Piece>, w: nat, room: nat, max: nat): (f: Fate)
    ensures f.Fits? ==> |Flat(ps)| <= room
    decreases ps
  {
    if ps == [] then Fits
    else
      var f := FateOf(ps[0], w, room, max);
      if f.Fits? then Fates(ps[1..], w + |FlatPiece(ps[0])|, room - |FlatPiece(ps[0])|, max) else f
  }

  /** The bytes of one piece that end up in the stream, also when it fails: a submessage adds what its substream has
      written. */
  function ReachedOf(p: Piece, w: nat, room: nat, max: nat): (n: nat)
    ensures n <= room
    ensures FateOf(p, w, room, max).Fits? ==> n == |FlatPiece(p)|
    decreases p
  {
    match p
    case Raw(bs) => if FateOf(p, w, room, max).Fits? then |bs| else 0
    case Nested(ps) =>
      var size := |Flat(ps)| % U32;
      if (w + size) % U32 > max then 0 else Reached(ps, 0, room, size)
    case Stop => 0
  }

  /** How far a run gets: the pieces before the failing one, and what that one still writes. */
  function Reached(ps: seq<Piece>, w: nat, room: nat, max: nat): (n: nat)
    ensures n <= room
    ensures Fates(ps, w, room, max).Fits? ==> n == |Flat(ps)|
    decreases ps
  {
    if ps == [] then 0
    else if FateOf(ps[0], w, room, max).Fits? then
      var n := |FlatPiece(ps[0])|;
      n + Reached(ps[1..], w + n, room - n, max)
    else ReachedOf(ps[0], w, room, max)
  }

  // ---------- concatenation ----------

  lemma {:induction false} FlatSum(x: seq<Piece>, y: seq<Piece>)
    ensures Flat(x + y) == Flat(x) + Flat(y)
    ensures Whole(x + y) <==> Whole(x) && Whole(y)
    decreases |x|
  {
    if x == [] {
      assert x + y == y;
    } else {
      assert (x + y)[0] == x[0] && (x + y)[1..] == x[1..] + y;
      FlatSum(x[1..], y);
    }
  }

  lemma {:induction false} FatesSum(x: seq<Piece>, y: seq<Piece>, w: nat, room: nat, max: nat)
    ensures Fates(x, w, room, max).Fits? ==> |Flat(x)| <= room
    ensures Fates(x + y, w, room, max)
         == if Fates(x, w, room, max).Fits? then Fates(y, w + |Flat(x)|, room - |Flat(x)|, max)
             else Fates(x, w, room, max)
    decreases |x|
  {
    hide FateOf;
    if x == [] {
      assert x + y == y;
    } else {
      assert (x + y)[0] == x[0] && (x + y)[1..] == x[1..] + y;
      if FateOf(x[0], w, room, max).Fits? {
        FatesSum(x[1..], y, w + |FlatPiece(x[0])|, room - |FlatPiece(x[0])|, max);
      }
    }
  }

  lemma {:induction false} ReachedSum(x: seq<Piece>, y: seq<Piece>, w: nat, room: nat, max: nat)
    ensures Fates(x, w, room, max).Fits? ==> |Flat(x)| <= room
    ensures Reached(x + y, w, room, max)
         == if Fates(x, w, room, max).Fits? then |Flat(x)| + Reached(y, w + |Flat(x)|, room - |Flat(x)|, max)
            else Reached(x, w, room, max)
    decreases |x|
  {
    hide FateOf, ReachedOf;
    if x == [] {
      assert x + y == y;
    } else {
      assert (x + y)[0] == x[0] && (x + y)[1..] == x[1..] + y;
      if FateOf(x[0], w, room, max).Fits? {
        ReachedSum(x[1..], y, w + |FlatPiece(x[0])|, room - |FlatPiece(x[0])|, max);
      }
    }
  }

  lemma One(p: Piece)
    ensures Flat([p]) == FlatPiece(p) && (Whole([p]) <==> !p.Stop? && (p.Nested? ==> Whole(p.ps)))
    ensures forall w: nat, room: nat, max: nat :: Fates([p], w, room, max) == FateOf(p, w, room, max)
    ensures forall w: nat, room: nat, max: nat :: Reached([p], w, room, max) == ReachedOf(p, w, room, max)
  {
    assert [p][1..] == [];
  }

  // ---------- when it fits ----------

  /** The counts are 32-bit numbers, also that of the last byte the memory has room for. */
  predicate Sane(w: nat, room: nat, max: nat) {
    w <= max < U32 && w + room < U32
  }

  /** Everything is written exactly when the encoder does not give up and there is room, by the count and in memory. */
  lemma {:induction false} FitsExactly(ps: seq<Piece>, w: nat, room: nat, max: nat)
    requires Sane(w, room, max)
    ensures Fates(ps, w, room, max).Fits? <==> Whole(ps) && |Flat(ps)| <= room && w + |Flat(ps)| <= max
    decreases ps, 1
  {
    hide FateOf, FlatPiece;
    if ps != [] {
      PieceFits(ps[0], w, room, max);
      One(ps[0]);
      FlatSum([ps[0]], ps[1..]);
      assert [ps[0]] + ps[1..] == ps;
      if FateOf(ps[0], w, room, max).Fits? {
        FitsExactly(ps[1..], w + |FlatPiece(ps[0])|, room - |FlatPiece(ps[0])|, max);
      }
    }
  }

  lemma {:induction false} PieceFits(p: Piece, w: nat, room: nat, max: nat)
    requires Sane(w, room, max)
    ensures var n := |FlatPiece(p)|;
            FateOf(p, w, room, max).Fits? <==> !p.Stop? && (p.Nested? ==> Whole(p.ps)) && n <= room && w + n <= max
    decreases p, 0
  {
    hide Fates, Flat;
    if p.Nested? {
      var n := |Flat(p.ps)|;
      if (w + n % U32) % U32 <= max {
        FitsExactly(p.ps, 0, room, n % U32);
      }
    }
  }

  // ---------- when memory is overrun ----------

  /** All memory that the count allows is there, as in every stream made from a buffer. */
  predicate Roomy(w: nat, room: nat, max: nat) {
    Sane(w, room, max) && max <= w + room
  }

  /** As long as the total stays below 2^32 nothing is written past the end. */
  lemma {:induction false} NoOverrun(ps: seq<Piece>, w: nat, room: nat, max: nat)
    requires Roomy(w, room, max) && w + |Flat(ps)| < U32
    ensures !Fates(ps, w, room, max).Over?
    decreases ps, 1
  {
    hide FateOf, FlatPiece;
    if ps != [] {
      PieceNoOverrun(ps[0], w, room, max);
      PieceFits(ps[0], w, room, max);
      if FateOf(ps[0], w, room, max).Fits? {
        NoOverrun(ps[1..], w + |FlatPiece(ps[0])|, room - |FlatPiece(ps[0])|, max);
      }
    }
  }

  lemma {:induction false} PieceNoOverrun(p: Piece, w: nat, room: nat, max: nat)
    requires Roomy(w, room, max) && w + |FlatPiece(p)| < U32
    ensures !FateOf(p, w, room, max).Over?
    decreases p, 0
  {
    hide Fates, Flat;
    if p.Nested? && w + |Flat(p.ps)| <= max {
      NoOverrun(p.ps, 0, room, |Flat(p.ps)|);
    }
  }

  /** What the count has room for is never refused; it is written or overruns. */
  lemma {:induction false} NeverFull(ps: seq<Piece>, w: nat, room: nat, max: nat)
    requires Sane(w, room, max) && Whole(ps) && w + |Flat(ps)| <= max
    ensures !Fates(ps, w, room, max).Full?
    decreases ps, 1
  {
    hide FateOf, FlatPiece;
    if ps != [] {
      PieceNeverFull(ps[0], w, room, max);
      PieceFits(ps[0], w, room, max);
      if FateOf(ps[0], w, room, max).Fits? {
        NeverFull(ps[1..], w + |FlatPiece(ps[0])|, room - |FlatPiece(ps[0])|, max);
      }
    }
  }

  lemma {:induction false} PieceNeverFull(p: Piece, w: nat, room: nat, max: nat)
    requires Sane(w, room, max) && !p.Stop? && (p.Nested? ==> Whole(p.ps)) && w + |FlatPiece(p)| <= max
    ensures !FateOf(p, w, room, max).Full?
    decreases p, 0
  {
    hide Fates, Flat;
    if p.Nested? {
      NeverFull(p.ps, 0, room, |Flat(p.ps)|);
    }
  }

  /** Every submessage taken by itself can be counted in 32 bits. */
  predicate Small(ps: seq<Piece>) {
    forall i | 0 <= i < |ps| && ps[i].Nested? :: Whole(ps[i].ps) && |Flat(ps[i].ps)| < U32
  }

  /** Submessage i is reached, and its size wraps past 2^32 to something that the count allows. */
  predicate WrapsAt(ps: seq<Piece>, w: nat, max: nat, i: nat) {
    && i < |ps| && ps[i].Nested? && Whole(ps[..i])
    && w + |Flat(ps[..i])| <= max
    && U32 <= w + |Flat(ps[..i])| + |Flat(ps[i].ps)| <= U32 + max
  }

  ghost predicate Wraps(ps: seq<Piece>, w: nat, max: nat) {
    exists i: nat :: WrapsAt(ps, w, max, i)
  }

  /** Memory is overrun exactly when some submessage is reached whose size and the bytes written before it add up to at
      least 2^32, but by no more than the buffer's size. */
  lemma {:induction false} OverrunExactly(ps: seq<Piece>, w: nat, room: nat, max: nat)
    requires Roomy(w, room, max) && Small(ps)
    ensures Fates(ps, w, room, max).Over? <==> Wraps(ps, w, max)
    decreases |ps|
  {
    hide FateOf, FlatPiece, Wraps, WrapsAt;
    if ps == [] {
      NothingWraps(w, max);
    } else {
      var (p, n) := (ps[0], |FlatPiece(ps[0])|);
      PieceOverruns(p, w, room, max);
      PieceFits(p, w, room, max);
      WrapsSoonOrLater(ps, w, max);
      if FateOf(p, w, room, max).Fits? {
        assert forall i | 0 <= i < |ps[1..]| :: ps[1..][i] == ps[i + 1];
        OverrunExactly(ps[1..], w + n, room - n, max);
      }
    }
  }

  lemma NothingWraps(w: nat, max: nat)
    ensures !Wraps([], w, max)
  {
  }

  lemma WrapsSoonOrLater(ps: seq<Piece>, w: nat, max: nat)
    requires ps != [] && w <= max
    ensures Wraps(ps, w, max) <==>
              || (ps[0].Nested? && U32 <= w + |Flat(ps[0].ps)| <= U32 + max)
              || (&& !ps[0].Stop? && (ps[0].Nested? ==> Whole(ps[0].ps)) && w + |FlatPiece(ps[0])| <= max
                  && Wraps(ps[1..], w + |FlatPiece(ps[0])|, max))
  {
    hide WrapsAt, FlatPiece;
    var (qs, v) := (ps[1..], w + |FlatPiece(ps[0])|);
    FirstWraps(ps, w, max);
    if Wraps(ps, w, max) {
      var i: nat :| WrapsAt(ps, w, max, i);
      if i > 0 {
        LaterWraps(ps, w, max, i - 1);
        assert WrapsAt(qs, v, max, i - 1);
      }
    }
    if Wraps(qs, v, max) {
      var i: nat :| WrapsAt(qs, v, max, i);
      LaterWraps(ps, w, max, i);
    }
  }

  lemma PieceOverruns(p: Piece, w: nat, room: nat, max: nat)
    requires Roomy(w, room, max) && (p.Nested? ==> Whole(p.ps) && |Flat(p.ps)| < U32)
    ensures FateOf(p, w, room, max).Over? <==> p.Nested? && U32 <= w + |Flat(p.ps)| <= U32 + max
  {
    hide Fates, Flat;
    if p.Nested? {
      var n := |Flat(p.ps)|;
      if w + n <= max {
        NoOverrun(p.ps, 0, room, n);
      } else if U32 <= w + n <= U32 + max {
        NeverFull(p.ps, 0, room, n);
        FitsExactly(p.ps, 0, room, n);
      }
    }
  }

  lemma FirstWraps(ps: seq<Piece>, w: nat, max: nat)
    requires ps != [] && w <= max
    ensures WrapsAt(ps, w, max, 0) <==> ps[0].Nested? && U32 <= w + |Flat(ps[0].ps)| <= U32 + max
  {
    assert ps[..0] == [];
  }

  /** A later submessage seen from behind the first piece; it is not reached if that piece stops the encoder or fills
      max. */
  lemma LaterWraps(ps: seq<Piece>, w: nat, max: nat, i: nat)
    requires ps != []
    ensures WrapsAt(ps, w, max, i + 1) <==>
              && !ps[0].Stop? && (ps[0].Nested? ==> Whole(ps[0].ps))
              && WrapsAt(ps[1..], w + |FlatPiece(ps[0])|, max, i)
    ensures WrapsAt(ps, w, max, i + 1) ==> w + |FlatPiece(ps[0])| <= max
  {
    hide FlatPiece;
    if i + 1 < |ps| {
      One(ps[0]);
      assert ps[..i + 1] == [ps[0]] + ps[1..][..i];
      FlatSum([ps[0]], ps[1..][..i]);
    }
  }

  // ---------- when the size has changed ----------

  /** A payload of 2^32 bytes or more never arrives whole. */
  lemma GiantStops(ps: seq<Piece>, w: nat, room: nat, max: nat)
    requires Sane(w, room, max) && |Flat(ps)| >= U32
    ensures !FateOf(Nested(ps), w, room, max).Fits?
  {
    PieceFits(Nested(ps), w, room, max);
  }

  /** pb_encode_submessage leaves through "submsg size changed": the guard lets the payload pass, its substream is
      refused a write, and by then it has not written as many bytes as were announced. */
  predicate SizeChanges(ps: seq<Piece>, w: nat, room: nat, max: nat) {
    var size := |Flat(ps)| % U32;
    && Whole(ps) && (w + size) % U32 <= max
    && Fates(ps, 0, room, size).Full? && Reached(ps, 0, room, size) != size
  }

  /** Below 2^32 bytes it never does. */
  lemma OnlyGiantsChange(ps: seq<Piece>, w: nat, room: nat, max: nat)
    requires Sane(w, room, max) && SizeChanges(ps, w, room, max)
    ensures |Flat(ps)| >= U32
  {
    hide Whole, Flat, Fates, Reached;
    if |Flat(ps)| < U32 { NeverFull(ps, 0, room, |Flat(ps)|); }
  }

  predicate CutAfter(ps: seq<Piece>, n: nat, i: nat) { i <= |ps| && |Flat(ps[..i])| == n }

  /** Some number of first pieces has n bytes in all. */
  ghost predicate CutAt(ps: seq<Piece>, n: nat) { exists i: nat :: CutAfter(ps, n, i) }

  lemma CutSoonOrLater(ps: seq<Piece>, n: nat)
    ensures CutAt([], n) <==> n == 0
    ensures n == 0 ==> CutAt(ps, n)
    ensures ps != [] ==>
              var k := |FlatPiece(ps[0])|;
              (CutAt(ps, n) <==> n == 0 || (k <= n && CutAt(ps[1..], n - k)))
  {
    hide CutAfter, FlatPiece;
    CutFirst([], n);
    CutFirst(ps, n);
    forall i: nat | CutAfter([], n, i) ensures n == 0 { CutEmpty(n, i); }
    if ps != [] {
      var k := |FlatPiece(ps[0])|;
      if CutAt(ps, n) && n > 0 {
        var i: nat :| CutAfter(ps, n, i);
        CutLater(ps, n, i - 1);
        assert CutAfter(ps[1..], n - k, i - 1);
      }
      if k <= n && CutAt(ps[1..], n - k) {
        var i: nat :| CutAfter(ps[1..], n - k, i);
        CutLater(ps, n, i);
      }
    }
  }

  lemma CutFirst(ps: seq<Piece>, n: nat)
    ensures CutAfter(ps, n, 0) <==> n == 0
  {
    assert ps[..0] == [];
  }

  lemma CutEmpty(n: nat, i: nat)
    requires CutAfter([], n, i)
    ensures n == 0
  {
  }

  lemma CutLater(ps: seq<Piece>, n: nat, i: nat)
    requires ps != []
    ensures var k := |FlatPiece(ps[0])|;
            CutAfter(ps, n, i + 1) <==> k <= n && CutAfter(ps[1..], n - k, i)
  {
    hide FlatPiece;
    if i + 1 <= |ps| {
      One(ps[0]);
      assert ps[..i + 1] == [ps[0]] + ps[1..][..i];
      FlatSum([ps[0]], ps[1..][..i]);
    }
  }

  /** A run that is refused stops exactly at its limit if the pieces can be cut there. */
  lemma {:induction false} ReachedCut(ps: seq<Piece>, w: nat, room: nat, max: nat)
    requires Roomy(w, room, max) && Small(ps) && Whole(ps) && Fates(ps, w, room, max).Full?
    ensures Reached(ps, w, room, max) == max - w <==> CutAt(ps, max - w)
    decreases |ps|
  {
    hide FateOf, ReachedOf, FlatPiece, CutAt;
    CutSoonOrLater(ps, max - w);
    var (p, n) := (ps[0], |FlatPiece(ps[0])|);
    PieceFits(p, w, room, max);
    if FateOf(p, w, room, max).Fits? {
      assert forall i | 0 <= i < |ps[1..]| :: ps[1..][i] == ps[i + 1];
      CutSoonOrLater(ps[1..], max - w - n);
      ReachedCut(ps[1..], w + n, room - n, max);
    } else {
      RefusedAtOnce(p, w, room, max);
    }
  }

  lemma RefusedAtOnce(p: Piece, w: nat, room: nat, max: nat)
    requires Roomy(w, room, max) && FateOf(p, w, room, max).Full? && !p.Stop?
    requires p.Nested? ==> Whole(p.ps) && |Flat(p.ps)| < U32
    ensures ReachedOf(p, w, room, max) == 0 && w + |FlatPiece(p)| > max
  {
    hide Fates, Reached, Flat;
    if p.Nested? {
      NeverFull(p.ps, 0, room, |Flat(p.ps)|);
    }
  }

  /** The exact condition on sizes, for a payload whose own submessages are below 2^32 bytes and whose announced size
      fits without a wrap: the payload has 2^32 bytes or more, no submessage in it wraps past the guard, and no cut
      between two of its pieces falls on the announced size. */
  lemma SizeChangesExactly(ps: seq<Piece>, w: nat, room: nat, max: nat)
    requires Roomy(w, room, max) && Small(ps) && Whole(ps) && w + |Flat(ps)| % U32 <= max
    ensures var size := |Flat(ps)| % U32;
            SizeChanges(ps, w, room, max) <==> |Flat(ps)| >= U32 && !Wraps(ps, 0, size) && !CutAt(ps, size)
  {
    hide Whole, Small, Flat, Fates, Reached, Wraps, CutAt;
    var size := |Flat(ps)| % U32;
    OverrunExactly(ps, 0, room, size);
    FitsExactly(ps, 0, room, size);
    if |Flat(ps)| < U32 { NeverFull(ps, 0, room, size); }
    if Fates(ps, 0, room, size).Full? { ReachedCut(ps, 0, room, size); }
  }
}
