/** Base64 as the source encodes and decodes it: the alphabet is that of section 4 of RFC 4648, and decoding undoes
    encoding for every tail length. Characters are ASCII codes; a text ends at its first zero. */
module Base64 {
  const PADDING: bv8 := 0x3d
  const TERMINATOR: bv8 := 0

  // ---------- the alphabet ----------

  /** base64char[x]. */
  function Char(x: bv8): bv8
    requires x < 64
  {
    var (high, low) := (x >> 4, x & 0x0f);
    match high
    case 0 => Char0(low)
    case 1 => Char1(low)
    case 2 => Char2(low)
    case _ => Char3(low)
  }

  function Char0(low: bv8): bv8 {
    match low
    case 0 => 0x41 case 1 => 0x42 case 2 => 0x43 case 3 => 0x44
    case 4 => 0x45 case 5 => 0x46 case 6 => 0x47 case 7 => 0x48
    case 8 => 0x49 case 9 => 0x4a case 10 => 0x4b case 11 => 0x4c
    case 12 => 0x4d case 13 => 0x4e case 14 => 0x4f case _ => 0x50
  }

  function Char1(low: bv8): bv8 {
    match low
    case 0 => 0x51 case 1 => 0x52 case 2 => 0x53 case 3 => 0x54
    case 4 => 0x55 case 5 => 0x56 case 6 => 0x57 case 7 => 0x58
    case 8 => 0x59 case 9 => 0x5a case 10 => 0x61 case 11 => 0x62
    case 12 => 0x63 case 13 => 0x64 case 14 => 0x65 case _ => 0x66
  }

  function Char2(low: bv8): bv8 {
    match low
    case 0 => 0x67 case 1 => 0x68 case 2 => 0x69 case 3 => 0x6a
    case 4 => 0x6b case 5 => 0x6c case 6 => 0x6d case 7 => 0x6e
    case 8 => 0x6f case 9 => 0x70 case 10 => 0x71 case 11 => 0x72
    case 12 => 0x73 case 13 => 0x74 case 14 => 0x75 case _ => 0x76
  }

  function Char3(low: bv8): bv8 {
    match low
    case 0 => 0x77 case 1 => 0x78 case 2 => 0x79 case 3 => 0x7a
    case 4 => 0x30 case 5 => 0x31 case 6 => 0x32 case 7 => 0x33
    case 8 => 0x34 case 9 => 0x35 case 10 => 0x36 case 11 => 0x37
    case 12 => 0x38 case 13 => 0x39 case 14 => 0x2b case _ => 0x2f
  }

  /** The position of a character in the alphabet, 0xFF for every other character. */
  function Value(c: bv8): bv8 {
    var (high, low) := (c >> 4, c & 0x0f);
    match high
    case 2 => Value2(low)
    case 3 => Value3(low)
    case 4 => Value4(low)
    case 5 => Value5(low)
    case 6 => Value6(low)
    case 7 => Value7(low)
    case _ => 0xFF
  }

  function Value2(low: bv8): bv8 {
    match low
    case 0 => 0xff case 1 => 0xff case 2 => 0xff case 3 => 0xff
    case 4 => 0xff case 5 => 0xff case 6 => 0xff case 7 => 0xff
    case 8 => 0xff case 9 => 0xff case 10 => 0xff case 11 => 0x3e
    case 12 => 0xff case 13 => 0xff case 14 => 0xff case _ => 0x3f
  }

  function Value3(low: bv8): bv8 {
    match low
    case 0 => 0x34 case 1 => 0x35 case 2 => 0x36 case 3 => 0x37
    case 4 => 0x38 case 5 => 0x39 case 6 => 0x3a case 7 => 0x3b
    case 8 => 0x3c case 9 => 0x3d case 10 => 0xff case 11 => 0xff
    case 12 => 0xff case 13 => 0xff case 14 => 0xff case _ => 0xff
  }

  function Value4(low: bv8): bv8 {
    match low
    case 0 => 0xff case 1 => 0x00 case 2 => 0x01 case 3 => 0x02
    case 4 => 0x03 case 5 => 0x04 case 6 => 0x05 case 7 => 0x06
    case 8 => 0x07 case 9 => 0x08 case 10 => 0x09 case 11 => 0x0a
    case 12 => 0x0b case 13 => 0x0c case 14 => 0x0d case _ => 0x0e
  }

  function Value5(low: bv8): bv8 {
    match low
    case 0 => 0x0f case 1 => 0x10 case 2 => 0x11 case 3 => 0x12
    case 4 => 0x13 case 5 => 0x14 case 6 => 0x15 case 7 => 0x16
    case 8 => 0x17 case 9 => 0x18 case 10 => 0x19 case 11 => 0xff
    case 12 => 0xff case 13 => 0xff case 14 => 0xff case _ => 0xff
  }

  function Value6(low: bv8): bv8 {
    match low
    case 0 => 0xff case 1 => 0x1a case 2 => 0x1b case 3 => 0x1c
    case 4 => 0x1d case 5 => 0x1e case 6 => 0x1f case 7 => 0x20
    case 8 => 0x21 case 9 => 0x22 case 10 => 0x23 case 11 => 0x24
    case 12 => 0x25 case 13 => 0x26 case 14 => 0x27 case _ => 0x28
  }

  function Value7(low: bv8): bv8 {
    match low
    case 0 => 0x29 case 1 => 0x2a case 2 => 0x2b case 3 => 0x2c
    case 4 => 0x2d case 5 => 0x2e case 6 => 0x2f case 7 => 0x30
    case 8 => 0x31 case 9 => 0x32 case 10 => 0x33 case 11 => 0xff
    case 12 => 0xff case 13 => 0xff case 14 => 0xff case _ => 0xff
  }

  lemma ValueOfRow0(low: bv8)
    requires low < 16
    ensures Value(Char0(low)) == 0x00 | low
  {
    match low
    case 0 => case 1 => case 2 => case 3 => case 4 => case 5 => case 6 => case 7 =>
    case 8 => case 9 => case 10 => case 11 => case 12 => case 13 => case 14 => case _ =>
  }

  lemma ValueOfRow1(low: bv8)
    requires low < 16
    ensures Value(Char1(low)) == 0x10 | low
  {
    match low
    case 0 => case 1 => case 2 => case 3 => case 4 => case 5 => case 6 => case 7 =>
    case 8 => case 9 => case 10 => case 11 => case 12 => case 13 => case 14 => case _ =>
  }

  lemma ValueOfRow2(low: bv8)
    requires low < 16
    ensures Value(Char2(low)) == 0x20 | low
  {
    match low
    case 0 => case 1 => case 2 => case 3 => case 4 => case 5 => case 6 => case 7 =>
    case 8 => case 9 => case 10 => case 11 => case 12 => case 13 => case 14 => case _ =>
  }

  lemma ValueOfRow3(low: bv8)
    requires low < 16
    ensures Value(Char3(low)) == 0x30 | low
  {
    match low
    case 0 => case 1 => case 2 => case 3 => case 4 => case 5 => case 6 => case 7 =>
    case 8 => case 9 => case 10 => case 11 => case 12 => case 13 => case 14 => case _ =>
  }

  lemma CharOfRow2(low: bv8)
    requires low < 16
    ensures Value2(low) == 0xFF || (Value2(low) < 64 && Char(Value2(low)) == 0x20 | low)
  {
    match low
    case 0 => case 1 => case 2 => case 3 => case 4 => case 5 => case 6 => case 7 =>
    case 8 => case 9 => case 10 => case 11 => case 12 => case 13 => case 14 => case _ =>
  }

  lemma CharOfRow3(low: bv8)
    requires low < 16
    ensures Value3(low) == 0xFF || (Value3(low) < 64 && Char(Value3(low)) == 0x30 | low)
  {
    match low
    case 0 => case 1 => case 2 => case 3 => case 4 => case 5 => case 6 => case 7 =>
    case 8 => case 9 => case 10 => case 11 => case 12 => case 13 => case 14 => case _ =>
  }

  lemma CharOfRow4(low: bv8)
    requires low < 16
    ensures Value4(low) == 0xFF || (Value4(low) < 64 && Char(Value4(low)) == 0x40 | low)
  {
    match low
    case 0 => case 1 => case 2 => case 3 => case 4 => case 5 => case 6 => case 7 =>
    case 8 => case 9 => case 10 => case 11 => case 12 => case 13 => case 14 => case _ =>
  }

  lemma CharOfRow5(low: bv8)
    requires low < 16
    ensures Value5(low) == 0xFF || (Value5(low) < 64 && Char(Value5(low)) == 0x50 | low)
  {
    match low
    case 0 => case 1 => case 2 => case 3 => case 4 => case 5 => case 6 => case 7 =>
    case 8 => case 9 => case 10 => case 11 => case 12 => case 13 => case 14 => case _ =>
  }

  lemma CharOfRow6(low: bv8)
    requires low < 16
    ensures Value6(low) == 0xFF || (Value6(low) < 64 && Char(Value6(low)) == 0x60 | low)
  {
    match low
    case 0 => case 1 => case 2 => case 3 => case 4 => case 5 => case 6 => case 7 =>
    case 8 => case 9 => case 10 => case 11 => case 12 => case 13 => case 14 => case _ =>
  }

  lemma CharOfRow7(low: bv8)
    requires low < 16
    ensures Value7(low) == 0xFF || (Value7(low) < 64 && Char(Value7(low)) == 0x70 | low)
  {
    match low
    case 0 => case 1 => case 2 => case 3 => case 4 => case 5 => case 6 => case 7 =>
    case 8 => case 9 => case 10 => case 11 => case 12 => case 13 => case 14 => case _ =>
  }

  lemma ValueOfChar(x: bv8)
    requires x < 64
    ensures Value(Char(x)) == x
  {
    hide Value, Char0, Char1, Char2, Char3;
    var low := x & 0x0f;
    match x >> 4
    case 0 => ValueOfRow0(low);
    case 1 => ValueOfRow1(low);
    case 2 => ValueOfRow2(low);
    case _ => ValueOfRow3(low);
  }

  lemma CharOfValue(c: bv8)
    ensures Value(c) == 0xFF || (Value(c) < 64 && Char(Value(c)) == c)
  {
    hide Char, Value2, Value3, Value4, Value5, Value6, Value7;
    var low := c & 0x0f;
    match c >> 4
    case 2 => CharOfRow2(low);
    case 3 => CharOfRow3(low);
    case 4 => CharOfRow4(low);
    case 5 => CharOfRow5(low);
    case 6 => CharOfRow6(low);
    case 7 => CharOfRow7(low);
    case _ =>
  }

  /** Section 4 of RFC 4648: capitals, small letters, digits, plus and solidus. */
  function Letter(x: bv8): bv8
    requires x < 64
  {
    if x < 26 then 0x41 + x
    else if x < 52 then 0x61 + (x - 26)
    else if x < 62 then 0x30 + (x - 52)
    else if x == 62 then 0x2b
    else 0x2f
  }

  lemma AlphabetRow0(low: bv8)
    requires low < 16
    ensures Char0(low) == Letter(0x00 | low)
  {
    match low
    case 0 => case 1 => case 2 => case 3 => case 4 => case 5 => case 6 => case 7 =>
    case 8 => case 9 => case 10 => case 11 => case 12 => case 13 => case 14 => case _ =>
  }

  lemma AlphabetRow1(low: bv8)
    requires low < 16
    ensures Char1(low) == Letter(0x10 | low)
  {
    match low
    case 0 => case 1 => case 2 => case 3 => case 4 => case 5 => case 6 => case 7 =>
    case 8 => case 9 => case 10 => case 11 => case 12 => case 13 => case 14 => case _ =>
  }

  lemma AlphabetRow2(low: bv8)
    requires low < 16
    ensures Char2(low) == Letter(0x20 | low)
  {
    match low
    case 0 => case 1 => case 2 => case 3 => case 4 => case 5 => case 6 => case 7 =>
    case 8 => case 9 => case 10 => case 11 => case 12 => case 13 => case 14 => case _ =>
  }

  lemma AlphabetRow3(low: bv8)
    requires low < 16
    ensures Char3(low) == Letter(0x30 | low)
  {
    match low
    case 0 => case 1 => case 2 => case 3 => case 4 => case 5 => case 6 => case 7 =>
    case 8 => case 9 => case 10 => case 11 => case 12 => case 13 => case 14 => case _ =>
  }

  /** The alphabet is that of the standard. */
  lemma Alphabet(x: bv8)
    requires x < 64
    ensures Char(x) == Letter(x)
  {
    hide Letter, Char0, Char1, Char2, Char3;
    var low := x & 0x0f;
    match x >> 4
    case 0 => AlphabetRow0(low);
    case 1 => AlphabetRow1(low);
    case 2 => AlphabetRow2(low);
    case _ => AlphabetRow3(low);
  }

  /** A character of the alphabet, so neither the padding character nor the terminator. */
  lemma Printable(x: bv8)
    requires x < 64
    ensures Char(x) != PADDING && Char(x) != TERMINATOR
  {
  }

  // ---------- groups of three bytes ----------

  function First(a: bv8): bv8 { (a >> 2) & 0x3F }

  function Second(a: bv8, b: bv8): bv8 { ((a << 4) & 0x30) | ((b >> 4) & 0x0F) }

  function Third(b: bv8, c: bv8): bv8 { ((b << 2) & 0x3C) | ((c >> 6) & 0x03) }

  function Fourth(c: bv8): bv8 { c & 0x3F }

  lemma SixBits(a: bv8, b: bv8, c: bv8)
    ensures First(a) < 64 && Second(a, b) < 64 && Third(b, c) < 64 && Fourth(c) < 64
  {
  }

  function Byte0(t: bv8, u: bv8): bv8 { ((t << 2) & 0xFC) | ((u >> 4) & 0x03) }

  function Byte1(u: bv8, v: bv8): bv8 { ((u << 4) & 0xF0) | ((v >> 2) & 0x0F) }

  /** The mask 0xF0 keeps both bits that the shift by six leaves. */
  function Byte2(v: bv8, w: bv8): bv8 { ((v << 6) & 0xF0) | (w & 0x3F) }

  lemma GroupInverse(a: bv8, b: bv8, c: bv8)
    ensures Byte0(First(a), Second(a, b)) == a
    ensures Byte1(Second(a, b), Third(b, c)) == b
    ensures Byte2(Third(b, c), Fourth(c)) == c
  {
  }

  /** Section 4 of RFC 4648: the four digits are the 24 bits of the group, six at a time. */
  lemma GroupIsRadix64(a: bv8, b: bv8, c: bv8)
    ensures ((First(a) as bv32) << 18) | ((Second(a, b) as bv32) << 12) | ((Third(b, c) as bv32) << 6)
            | (Fourth(c) as bv32)
         == ((a as bv32) << 16) | ((b as bv32) << 8) | (c as bv32)
  {
  }

  // ---------- whole texts ----------

  /** The four characters of three bytes. */
  function Group(a: bv8, b: bv8, c: bv8): (t: seq<bv8>)
    ensures |t| == 4
  {
    SixBits(a, b, c);
    [Char(First(a)), Char(Second(a, b)), Char(Third(b, c)), Char(Fourth(c))]
  }

  function Encoded(s: seq<bv8>): (t: seq<bv8>) {
    if |s| == 0 then []
    else if |s| == 1 then Group(s[0], 0, 0)[..2] + [PADDING, PADDING]
    else if |s| == 2 then Group(s[0], s[1], 0)[..3] + [PADDING]
    else Group(s[0], s[1], s[2]) + Encoded(s[3..])
  }

  /** Reading in groups of four comes to an end inside t: at a group that starts with the terminator or is padded. */
  predicate Ends(t: seq<bv8>) {
    |t| > 0 && (t[0] == TERMINATOR || (|t| >= 4 && (PaddedAt(t, 0) || Ends(t[4..]))))
  }

  predicate PaddedAt(t: seq<bv8>, i: nat)
    requires i + 4 <= |t|
  {
    t[i + 2] == PADDING || t[i + 3] == PADDING
  }

  /** The bytes of one group. */
  function GroupBytes(t: seq<bv8>): (s: seq<bv8>)
    requires |t| == 4
    ensures 1 <= |s| <= 3
  {
    var (p, q, r, w) := (Value(t[0]), Value(t[1]), Value(t[2]), Value(t[3]));
    if t[2] == PADDING then [Byte0(p, q)]
    else if t[3] == PADDING then [Byte0(p, q), Byte1(q, r)]
    else [Byte0(p, q), Byte1(q, r), Byte2(r, w)]
  }

  /** What decoding makes of the memory t from the start of the text. */
  function Decoded(t: seq<bv8>): (s: seq<bv8>)
    requires Ends(t)
    ensures |s| <= |t| / 4 * 3
  {
    if t[0] == TERMINATOR then []
    else GroupBytes(t[..4]) + if PaddedAt(t, 0) then [] else Decoded(t[4..])
  }

  /** The text has four characters for every three bytes begun and no terminator inside. */
  lemma {:induction false} EncodedShape(s: seq<bv8>)
    ensures |Encoded(s)| == 4 * ((|s| + 2) / 3) && TERMINATOR !in Encoded(s)
  {
    hide Char, First, Second, Third, Fourth;
    if |s| > 0 {
      var (a, b, c) := (s[0], if |s| > 1 then s[1] else 0, if |s| > 2 then s[2] else 0);
      SixBits(a, b, c);
      Printable(First(a)); Printable(Second(a, b)); Printable(Third(b, c)); Printable(Fourth(c));
      if |s| >= 3 {
        EncodedShape(s[3..]);
      }
    }
  }

  lemma GroupValues(a: bv8, b: bv8, c: bv8)
    ensures var g := Group(a, b, c);
            && Value(g[0]) == First(a) && Value(g[1]) == Second(a, b) && Value(g[2]) == Third(b, c)
                && Value(g[3]) == Fourth(c)
            && g[0] != TERMINATOR && g[2] != PADDING && g[3] != PADDING
  {
    hide Char, Value, First, Second, Third, Fourth;
    SixBits(a, b, c);
    ValueOfChar(First(a)); ValueOfChar(Second(a, b)); ValueOfChar(Third(b, c)); ValueOfChar(Fourth(c));
    Printable(First(a)); Printable(Third(b, c)); Printable(Fourth(c));
  }

  /** Decoding returns the bytes that were encoded, with one, two or no padding characters, whatever lies behind the
      terminator. */
  lemma {:induction false} DecodeEncode(s: seq<bv8>, behind: seq<bv8>)
    ensures Ends(Encoded(s) + [TERMINATOR] + behind) && Decoded(Encoded(s) + [TERMINATOR] + behind) == s
  {
    hide Encoded, GroupBytes;
    var (t, u) := (Encoded(s), Encoded(s) + [TERMINATOR] + behind);
    if s == [] {
      NothingEncoded();
    } else {
      FirstGroup(s);
      assert u[..4] == t[..4] && PaddedAt(u, 0) == PaddedAt(t, 0);
      if |s| >= 3 {
        DecodeEncode(s[3..], behind);
        assert u[4..] == t[4..] + [TERMINATOR] + behind;
      }
    }
  }

  lemma NothingEncoded()
    ensures Encoded([]) == []
  {
  }

  /** The first group of an encoded text holds its first three bytes, and is padded if there are fewer. */
  lemma FirstGroup(s: seq<bv8>)
    requires s != []
    ensures var t := Encoded(s);
            && |t| >= 4 && t[0] != TERMINATOR && PaddedAt(t, 0) == (|s| < 3)
            && if |s| < 3 then GroupBytes(t[..4]) == s else GroupBytes(t[..4]) == s[..3] && t[4..] == Encoded(s[3..])
  {
    hide Value, Group, First, Second, Third, Fourth, Byte0, Byte1, Byte2;
    var (a, b, c) := (s[0], if |s| > 1 then s[1] else 0, if |s| > 2 then s[2] else 0);
    GroupValues(a, b, c);
    GroupInverse(a, b, c);
  }

  /** Group i lies within t and is padded. */
  predicate PaddedGroup(t: seq<bv8>, i: nat) { 4 * i + 4 <= |t| && PaddedAt(t, 4 * i) }

  ghost predicate SomePadded(t: seq<bv8>) { exists i: nat :: PaddedGroup(t, i) }

  lemma SomePaddedNext(t: seq<bv8>)
    ensures if |t| < 4 then !SomePadded(t) else SomePadded(t) <==> PaddedAt(t, 0) || SomePadded(t[4..])
  {
    if |t| >= 4 {
      var v := t[4..];
      assert PaddedGroup(t, 0) <==> PaddedAt(t, 0);
      if i: nat :| PaddedGroup(v, i) {
        assert PaddedGroup(t, i + 1);
      }
      if i: nat :| PaddedGroup(t, i) && i > 0 {
        assert PaddedGroup(v, i - 1);
      }
    }
  }

  /** A text is decoded without a look behind its terminator exactly when it has whole groups or one is padded. */
  lemma {:induction false} EndsExactly(t: seq<bv8>)
    requires TERMINATOR !in t
    ensures Ends(t + [TERMINATOR]) <==> |t| % 4 == 0 || SomePadded(t + [TERMINATOR])
  {
    hide SomePadded;
    var u := t + [TERMINATOR];
    SomePaddedNext(u);
    if t != [] { assert t[0] in t && u[0] == t[0]; }
    if |t| >= 4 {
      assert u[4..] == t[4..] + [TERMINATOR];
      EndsExactly(t[4..]);
    } else if |t| == 3 {
      SomePaddedNext(u[4..]);
    }
  }

  // ---------- known texts ----------

  lemma DigitsOf(a: bv8, b: bv8, c: bv8, p: bv8, q: bv8, r: bv8, w: bv8)
    requires First(a) == p && Second(a, b) == q && Third(b, c) == r && Fourth(c) == w
    ensures p < 64 && q < 64 && r < 64 && w < 64 && Group(a, b, c) == [Char(p), Char(q), Char(r), Char(w)]
  {
    hide Char, First, Second, Third, Fourth;
    SixBits(a, b, c);
  }

  /** The test vectors of section 10 of RFC 4648 for "f", "fo", "foo" and "foobar". */
  lemma KnownTexts()
    ensures Encoded([0x66]) == [0x5a, 0x67, 0x3d, 0x3d] && Encoded([0x66, 0x6f]) == [0x5a, 0x6d, 0x38, 0x3d]
    ensures Encoded([0x66, 0x6f, 0x6f]) == [0x5a, 0x6d, 0x39, 0x76]
    ensures Encoded([0x66, 0x6f, 0x6f, 0x62, 0x61, 0x72]) == [0x5a, 0x6d, 0x39, 0x76, 0x59, 0x6d, 0x46, 0x79]
  {
    KnownGroups();
    hide Group;
    var s: seq<bv8> := [0x66, 0x6f, 0x6f, 0x62, 0x61, 0x72];
    assert s[3..] == [0x62, 0x61, 0x72] && [0x66 as bv8, 0x6f, 0x6f][3..] == [] && [0x62 as bv8, 0x61, 0x72][3..] == [];
    assert Encoded([0x62, 0x61, 0x72]) == Group(0x62, 0x61, 0x72);
  }

  lemma KnownGroups()
    ensures Group(0x66, 0, 0)[..2] == [0x5a, 0x67] && Group(0x66, 0x6f, 0)[..3] == [0x5a, 0x6d, 0x38]
    ensures Group(0x66, 0x6f, 0x6f) == [0x5a, 0x6d, 0x39, 0x76] && Group(0x62, 0x61, 0x72) == [0x59, 0x6d, 0x46, 0x79]
  {
    KnownDigits();
    hide First, Second, Third, Fourth, Char, Group;
    DigitsOf(0x66, 0, 0, 25, 32, 0, 0);
    DigitsOf(0x66, 0x6f, 0, 25, 38, 60, 0);
    DigitsOf(0x66, 0x6f, 0x6f, 25, 38, 61, 47);
    DigitsOf(0x62, 0x61, 0x72, 24, 38, 5, 50);
    KnownLetters();
  }

  lemma KnownDigits()
    ensures First(0x66) == 25 && Second(0x66, 0) == 32 && Third(0, 0) == 0 && Fourth(0) == 0
    ensures Second(0x66, 0x6f) == 38 && Third(0x6f, 0) == 60 && Third(0x6f, 0x6f) == 61 && Fourth(0x6f) == 47
    ensures First(0x62) == 24 && Second(0x62, 0x61) == 38 && Third(0x61, 0x72) == 5 && Fourth(0x72) == 50
  {
  }

  lemma KnownLetters()
    ensures Char(25) == 0x5a && Char(32) == 0x67 && Char(38) == 0x6d && Char(60) == 0x38
    ensures Char(61) == 0x39 && Char(47) == 0x76 && Char(24) == 0x59 && Char(5) == 0x46 && Char(50) == 0x79
  {
    hide Char;
    Alphabet(25); Alphabet(32); Alphabet(38); Alphabet(60); Alphabet(61); Alphabet(47); Alphabet(24); Alphabet(5);
    Alphabet(50);
  }

  // ---------- the loops ----------

  lemma EncodedOne(s: seq<bv8>)
    requires |s| == 1
    ensures First(s[0]) < 64 && Second(s[0], 0) < 64
    ensures Encoded(s) == [Char(First(s[0])), Char(Second(s[0], 0)), PADDING, PADDING]
  {
    hide Char, First, Second, Third, Fourth;
    SixBits(s[0], 0, 0);
  }

  lemma EncodedTwo(s: seq<bv8>)
    requires |s| == 2
    ensures First(s[0]) < 64 && Second(s[0], s[1]) < 64 && Third(s[1], 0) < 64
    ensures Encoded(s) == [Char(First(s[0])), Char(Second(s[0], s[1])), Char(Third(s[1], 0)), PADDING]
  {
    hide Char, First, Second, Third, Fourth;
    SixBits(s[0], s[1], 0);
  }

  lemma EncodedMore(s: seq<bv8>)
    requires |s| >= 3
    ensures First(s[0]) < 64 && Second(s[0], s[1]) < 64 && Third(s[1], s[2]) < 64 && Fourth(s[2]) < 64
    ensures Encoded(s) == [Char(First(s[0])), Char(Second(s[0], s[1])), Char(Third(s[1], s[2])), Char(Fourth(s[2]))]
                          + Encoded(s[3..])
  {
    hide Char, First, Second, Third, Fourth;
    SixBits(s[0], s[1], s[2]);
  }

  /** base64_encode. */
  method Encode(bindata: array<bv8>, n: nat, base64: array<bv8>)
    requires n <= bindata.Length && 4 * ((n + 2) / 3) < base64.Length && bindata != base64
    modifies base64
    ensures var t := Encoded(bindata[..n]);
            |t| < base64.Length && base64[..] == t + [TERMINATOR] + old(base64[|t| + 1..])
  {
    hide Encoded;
    EncodedShape(bindata[..n]);
    ghost var before := base64[..];
    var j := EncodeGroups(bindata, n, base64);
    ghost var t := Encoded(bindata[..n]);
    assert base64[j + 1..] == base64[j..][1..] == before[j + 1..];
    base64[j] := TERMINATOR;
    assert base64[..] == base64[..j] + [TERMINATOR] + base64[j + 1..];
  }

  /** The loop of base64_encode. */
  method EncodeGroups(bindata: array<bv8>, n: nat, base64: array<bv8>) returns (j: nat)
    requires n <= bindata.Length && 4 * ((n + 2) / 3) < base64.Length && bindata != base64
    modifies base64
    ensures j == |Encoded(bindata[..n])| < base64.Length
    ensures base64[..j] == Encoded(bindata[..n]) && base64[j..] == old(base64[j..])
  {
    hide Encoded;
    ghost var t := Encoded(bindata[..n]);
    EncodedShape(bindata[..n]);
    NothingEncoded();
    assert bindata[0..n] == bindata[..n];
    var i := 0;
    j := 0;
    while i < n
      invariant i <= n && j + |Encoded(bindata[i..n])| == |t|
      invariant t == base64[..j] + Encoded(bindata[i..n]) && base64[j..] == old(base64[j..])
    {
      EncodedShape(bindata[i..n]);
      var stop;
      j, stop := EncodeGroup(bindata, i, n, base64, j);
      if stop {
        return;
      }
      i := i + 3;
    }
    assert bindata[i..n] == [];
  }

  /** The body of the loop of base64_encode; stop says that it left the loop. */
  method EncodeGroup(bindata: array<bv8>, i: nat, n: nat, base64: array<bv8>, j: nat) returns (next: nat, stop: bool)
    requires i < n <= bindata.Length && j + 4 <= base64.Length && bindata != base64
    modifies base64
    ensures next == j + 4 && stop == (n - i < 3) && base64[next..] == old(base64[next..])
    ensures base64[..next] + (if stop then [] else Encoded(bindata[i + 3..n]))
            == old(base64[..j]) + Encoded(bindata[i..n])
  {
    hide Encoded, Char, First, Second, Third, Fourth;
    ghost var (rest, before) := (bindata[i..n], base64[..j]);
    next, stop := j + 4, true;
    if i + 1 >= n {
      EncodedOne(rest);
      PutFour(base64, j, Char(First(bindata[i])), Char(Second(bindata[i], 0)), PADDING, PADDING);
      return;
    }
    if i + 2 >= n {
      EncodedTwo(rest);
      PutFour(base64, j, Char(First(bindata[i])), Char(Second(bindata[i], bindata[i + 1])),
              Char(Third(bindata[i + 1], 0)), PADDING);
      return;
    }
    stop := false;
    EncodedMore(rest);
    assert rest[3..] == bindata[i + 3..n];
    PutFour(base64, j, Char(First(bindata[i])), Char(Second(bindata[i], bindata[i + 1])),
            Char(Third(bindata[i + 1], bindata[i + 2])), Char(Fourth(bindata[i + 2])));
  }

  method PutFour(buffer: array<bv8>, j: nat, p: bv8, q: bv8, r: bv8, w: bv8)
    requires j + 4 <= buffer.Length
    modifies buffer
    ensures buffer[..j + 4] == old(buffer[..j]) + [p, q, r, w] && buffer[j + 4..] == old(buffer[j + 4..])
  {
    buffer[j] := p;
    buffer[j + 1] := q;
    buffer[j + 2] := r;
    buffer[j + 3] := w;
  }

  /** The search loop of base64_decode for one character. */
  method Search(c: bv8) returns (temp: bv8)
    ensures temp == Value(c)
  {
    hide Char, Value;
    CharOfValue(c);
    temp := 0xFF;
    var k: bv8 := 0;
    while k < 64
      invariant k <= 64
      invariant temp == if Value(c) < k then Value(c) else 0xFF
      decreases 64 - k
    {
      ValueOfChar(k);
      if Char(k) == c {
        temp := k;
      }
      k := k + 1;
    }
  }

  /** base64_decode. The text lies at the start of the array; reading it stays inside the array. */
  method Decode(base64: array<bv8>, bindata: array<bv8>) returns (j: nat)
    requires Ends(base64[..]) && |Decoded(base64[..])| <= bindata.Length && bindata != base64
    modifies bindata
    ensures j == |Decoded(base64[..])| && bindata[..] == Decoded(base64[..]) + old(bindata[j..])
  {
    hide Decoded, GroupBytes, Ends, PaddedAt;
    ghost var s := Decoded(base64[..]);
    Start(base64[..]);
    var i := 0;
    j := 0;
    while base64[i] != TERMINATOR
      invariant i < base64.Length && Ends(base64[i..]) && j + |Decoded(base64[i..])| == |s|
      invariant s == bindata[..j] + Decoded(base64[i..]) && bindata[j..] == old(bindata[j..])
      decreases base64.Length - i
    {
      NextGroup(base64[i..]);
      assert base64[i..][..4] == base64[i..i + 4] && base64[i..][4..] == base64[i + 4..];
      ghost var (done, g, from) := (bindata[..j], GroupBytes(base64[i..i + 4]), j);
      var stop;
      j, stop := DecodeGroup(base64, i, bindata, j);
      Onwards(done, g, if stop then [] else Decoded(base64[i + 4..]));
      SameTail(bindata[..], old(bindata[..]), from, j);
      if stop {
        return;
      }
      i := i + 4;
    }
    NoText(base64[i..]);
  }

  lemma Onwards(x: seq<bv8>, y: seq<bv8>, z: seq<bv8>)
    ensures (x + y) + z == x + (y + z)
  {
  }

  lemma SameTail(a: seq<bv8>, b: seq<bv8>, i: nat, j: nat)
    requires |a| == |b| && i <= j <= |a| && a[j..] == b[i..][j - i..]
    ensures a[j..] == b[j..]
  {
  }

  lemma Start(t: seq<bv8>)
    requires Ends(t)
    ensures t[0..] == t && |t| > 0
  {
  }

  lemma NoText(t: seq<bv8>)
    requires |t| > 0 && t[0] == TERMINATOR
    ensures Ends(t) && Decoded(t) == []
  {
  }

  /** The body of the loop of base64_decode; stop says that it left the loop. */
  method DecodeGroup(base64: array<bv8>, i: nat, bindata: array<bv8>, j: nat) returns (next: nat, stop: bool)
    requires i + 4 <= base64.Length && bindata != base64
    requires j + |GroupBytes(base64[i..i + 4])| <= bindata.Length
    modifies bindata
    ensures next == j + |GroupBytes(base64[i..i + 4])| && stop == PaddedAt(base64[i..], 0)
    ensures bindata[..next] == old(bindata[..j]) + GroupBytes(base64[i..i + 4])
    ensures bindata[next..] == old(bindata[next..])
  {
    hide Value, Byte0, Byte1, Byte2, GroupBytes;
    ghost var g := base64[i..i + 4];
    BytesAre(g, g[0], g[1], g[2], g[3]);
    ghost var before := bindata[..];
    var p := Search(base64[i]);
    var q := Search(base64[i + 1]);
    var r := Search(base64[i + 2]);
    var w := Search(base64[i + 3]);
    stop := true;
    bindata[j] := Byte0(p, q);
    next := j + 1;
    if base64[i + 2] == PADDING {
      return;
    }
    bindata[j + 1] := Byte1(q, r);
    next := j + 2;
    if base64[i + 3] == PADDING {
      return;
    }
    bindata[j + 2] := Byte2(r, w);
    next, stop := j + 3, false;
  }

  lemma BytesAre(t: seq<bv8>, a: bv8, b: bv8, c: bv8, d: bv8)
    requires |t| == 4 && t == [a, b, c, d]
    ensures GroupBytes(t) == if c == PADDING then [Byte0(Value(a), Value(b))]
                             else if d == PADDING then [Byte0(Value(a), Value(b)), Byte1(Value(b), Value(c))]
                             else [Byte0(Value(a), Value(b)), Byte1(Value(b), Value(c)), Byte2(Value(c), Value(d))]
  {
    hide Value, Byte0, Byte1, Byte2;
  }

  lemma NextGroup(t: seq<bv8>)
    requires Ends(t) && t[0] != TERMINATOR
    ensures |t| >= 4 && (!PaddedAt(t, 0) ==> |t| > 4 && Ends(t[4..]))
    ensures Decoded(t) == GroupBytes(t[..4]) + if PaddedAt(t, 0) then [] else Decoded(t[4..])
  {
    hide GroupBytes;
  }
}
