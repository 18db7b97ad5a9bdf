/** CRC-32: the table-driven loops against bit-at-a-time division by the reflected polynomial. */
module Crc32 {
  const POLYNOMIAL: bv32 := 0xEDB88320

  // ---------- the table ----------

  function Table(x: bv32): bv32
    requires x < 256
  {
    var (high, low) := (x >> 4, x & 0x0f);
    match high
    case 0 => Table0(low)
    case 1 => Table1(low)
    case 2 => Table2(low)
    case 3 => Table3(low)
    case 4 => Table4(low)
    case 5 => Table5(low)
    case 6 => Table6(low)
    case 7 => Table7(low)
    case 8 => Table8(low)
    case 9 => Table9(low)
    case 10 => TableA(low)
    case 11 => TableB(low)
    case 12 => TableC(low)
    case 13 => TableD(low)
    case 14 => TableE(low)
    case _ => TableF(low)
  }

  function Table0(low: bv32): bv32 {
    match low
    case 0 => 0x00000000 case 1 => 0x77073096 case 2 => 0xee0e612c case 3 => 0x990951ba
    case 4 => 0x076dc419 case 5 => 0x706af48f case 6 => 0xe963a535 case 7 => 0x9e6495a3
    case 8 => 0x0edb8832 case 9 => 0x79dcb8a4 case 10 => 0xe0d5e91e case 11 => 0x97d2d988
    case 12 => 0x09b64c2b case 13 => 0x7eb17cbd case 14 => 0xe7b82d07 case _ => 0x90bf1d91
  }

  function Table1(low: bv32): bv32 {
    match low
    case 0 => 0x1db71064 case 1 => 0x6ab020f2 case 2 => 0xf3b97148 case 3 => 0x84be41de
    case 4 => 0x1adad47d case 5 => 0x6ddde4eb case 6 => 0xf4d4b551 case 7 => 0x83d385c7
    case 8 => 0x136c9856 case 9 => 0x646ba8c0 case 10 => 0xfd62f97a case 11 => 0x8a65c9ec
    case 12 => 0x14015c4f case 13 => 0x63066cd9 case 14 => 0xfa0f3d63 case _ => 0x8d080df5
  }

  function Table2(low: bv32): bv32 {
    match low
    case 0 => 0x3b6e20c8 case 1 => 0x4c69105e case 2 => 0xd56041e4 case 3 => 0xa2677172
    case 4 => 0x3c03e4d1 case 5 => 0x4b04d447 case 6 => 0xd20d85fd case 7 => 0xa50ab56b
    case 8 => 0x35b5a8fa case 9 => 0x42b2986c case 10 => 0xdbbbc9d6 case 11 => 0xacbcf940
    case 12 => 0x32d86ce3 case 13 => 0x45df5c75 case 14 => 0xdcd60dcf case _ => 0xabd13d59
  }

  function Table3(low: bv32): bv32 {
    match low
    case 0 => 0x26d930ac case 1 => 0x51de003a case 2 => 0xc8d75180 case 3 => 0xbfd06116
    case 4 => 0x21b4f4b5 case 5 => 0x56b3c423 case 6 => 0xcfba9599 case 7 => 0xb8bda50f
    case 8 => 0x2802b89e case 9 => 0x5f058808 case 10 => 0xc60cd9b2 case 11 => 0xb10be924
    case 12 => 0x2f6f7c87 case 13 => 0x58684c11 case 14 => 0xc1611dab case _ => 0xb6662d3d
  }

  function Table4(low: bv32): bv32 {
    match low
    case 0 => 0x76dc4190 case 1 => 0x01db7106 case 2 => 0x98d220bc case 3 => 0xefd5102a
    case 4 => 0x71b18589 case 5 => 0x06b6b51f case 6 => 0x9fbfe4a5 case 7 => 0xe8b8d433
    case 8 => 0x7807c9a2 case 9 => 0x0f00f934 case 10 => 0x9609a88e case 11 => 0xe10e9818
    case 12 => 0x7f6a0dbb case 13 => 0x086d3d2d case 14 => 0x91646c97 case _ => 0xe6635c01
  }

  function Table5(low: bv32): bv32 {
    match low
    case 0 => 0x6b6b51f4 case 1 => 0x1c6c6162 case 2 => 0x856530d8 case 3 => 0xf262004e
    case 4 => 0x6c0695ed case 5 => 0x1b01a57b case 6 => 0x8208f4c1 case 7 => 0xf50fc457
    case 8 => 0x65b0d9c6 case 9 => 0x12b7e950 case 10 => 0x8bbeb8ea case 11 => 0xfcb9887c
    case 12 => 0x62dd1ddf case 13 => 0x15da2d49 case 14 => 0x8cd37cf3 case _ => 0xfbd44c65
  }

  function Table6(low: bv32): bv32 {
    match low
    case 0 => 0x4db26158 case 1 => 0x3ab551ce case 2 => 0xa3bc0074 case 3 => 0xd4bb30e2
    case 4 => 0x4adfa541 case 5 => 0x3dd895d7 case 6 => 0xa4d1c46d case 7 => 0xd3d6f4fb
    case 8 => 0x4369e96a case 9 => 0x346ed9fc case 10 => 0xad678846 case 11 => 0xda60b8d0
    case 12 => 0x44042d73 case 13 => 0x33031de5 case 14 => 0xaa0a4c5f case _ => 0xdd0d7cc9
  }

  function Table7(low: bv32): bv32 {
    match low
    case 0 => 0x5005713c case 1 => 0x270241aa case 2 => 0xbe0b1010 case 3 => 0xc90c2086
    case 4 => 0x5768b525 case 5 => 0x206f85b3 case 6 => 0xb966d409 case 7 => 0xce61e49f
    case 8 => 0x5edef90e case 9 => 0x29d9c998 case 10 => 0xb0d09822 case 11 => 0xc7d7a8b4
    case 12 => 0x59b33d17 case 13 => 0x2eb40d81 case 14 => 0xb7bd5c3b case _ => 0xc0ba6cad
  }

  function Table8(low: bv32): bv32 {
    match low
    case 0 => 0xedb88320 case 1 => 0x9abfb3b6 case 2 => 0x03b6e20c case 3 => 0x74b1d29a
    case 4 => 0xead54739 case 5 => 0x9dd277af case 6 => 0x04db2615 case 7 => 0x73dc1683
    case 8 => 0xe3630b12 case 9 => 0x94643b84 case 10 => 0x0d6d6a3e case 11 => 0x7a6a5aa8
    case 12 => 0xe40ecf0b case 13 => 0x9309ff9d case 14 => 0x0a00ae27 case _ => 0x7d079eb1
  }

  function Table9(low: bv32): bv32 {
    match low
    case 0 => 0xf00f9344 case 1 => 0x8708a3d2 case 2 => 0x1e01f268 case 3 => 0x6906c2fe
    case 4 => 0xf762575d case 5 => 0x806567cb case 6 => 0x196c3671 case 7 => 0x6e6b06e7
    case 8 => 0xfed41b76 case 9 => 0x89d32be0 case 10 => 0x10da7a5a case 11 => 0x67dd4acc
    case 12 => 0xf9b9df6f case 13 => 0x8ebeeff9 case 14 => 0x17b7be43 case _ => 0x60b08ed5
  }

  function TableA(low: bv32): bv32 {
    match low
    case 0 => 0xd6d6a3e8 case 1 => 0xa1d1937e case 2 => 0x38d8c2c4 case 3 => 0x4fdff252
    case 4 => 0xd1bb67f1 case 5 => 0xa6bc5767 case 6 => 0x3fb506dd case 7 => 0x48b2364b
    case 8 => 0xd80d2bda case 9 => 0xaf0a1b4c case 10 => 0x36034af6 case 11 => 0x41047a60
    case 12 => 0xdf60efc3 case 13 => 0xa867df55 case 14 => 0x316e8eef case _ => 0x4669be79
  }

  function TableB(low: bv32): bv32 {
    match low
    case 0 => 0xcb61b38c case 1 => 0xbc66831a case 2 => 0x256fd2a0 case 3 => 0x5268e236
    case 4 => 0xcc0c7795 case 5 => 0xbb0b4703 case 6 => 0x220216b9 case 7 => 0x5505262f
    case 8 => 0xc5ba3bbe case 9 => 0xb2bd0b28 case 10 => 0x2bb45a92 case 11 => 0x5cb36a04
    case 12 => 0xc2d7ffa7 case 13 => 0xb5d0cf31 case 14 => 0x2cd99e8b case _ => 0x5bdeae1d
  }

  function TableC(low: bv32): bv32 {
    match low
    case 0 => 0x9b64c2b0 case 1 => 0xec63f226 case 2 => 0x756aa39c case 3 => 0x026d930a
    case 4 => 0x9c0906a9 case 5 => 0xeb0e363f case 6 => 0x72076785 case 7 => 0x05005713
    case 8 => 0x95bf4a82 case 9 => 0xe2b87a14 case 10 => 0x7bb12bae case 11 => 0x0cb61b38
    case 12 => 0x92d28e9b case 13 => 0xe5d5be0d case 14 => 0x7cdcefb7 case _ => 0x0bdbdf21
  }

  function TableD(low: bv32): bv32 {
    match low
    case 0 => 0x86d3d2d4 case 1 => 0xf1d4e242 case 2 => 0x68ddb3f8 case 3 => 0x1fda836e
    case 4 => 0x81be16cd case 5 => 0xf6b9265b case 6 => 0x6fb077e1 case 7 => 0x18b74777
    case 8 => 0x88085ae6 case 9 => 0xff0f6a70 case 10 => 0x66063bca case 11 => 0x11010b5c
    case 12 => 0x8f659eff case 13 => 0xf862ae69 case 14 => 0x616bffd3 case _ => 0x166ccf45
  }

  function TableE(low: bv32): bv32 {
    match low
    case 0 => 0xa00ae278 case 1 => 0xd70dd2ee case 2 => 0x4e048354 case 3 => 0x3903b3c2
    case 4 => 0xa7672661 case 5 => 0xd06016f7 case 6 => 0x4969474d case 7 => 0x3e6e77db
    case 8 => 0xaed16a4a case 9 => 0xd9d65adc case 10 => 0x40df0b66 case 11 => 0x37d83bf0
    case 12 => 0xa9bcae53 case 13 => 0xdebb9ec5 case 14 => 0x47b2cf7f case _ => 0x30b5ffe9
  }

  function TableF(low: bv32): bv32 {
    match low
    case 0 => 0xbdbdf21c case 1 => 0xcabac28a case 2 => 0x53b39330 case 3 => 0x24b4a3a6
    case 4 => 0xbad03605 case 5 => 0xcdd70693 case 6 => 0x54de5729 case 7 => 0x23d967bf
    case 8 => 0xb3667a2e case 9 => 0xc4614ab8 case 10 => 0x5d681b02 case 11 => 0x2a6f2b94
    case 12 => 0xb40bbe37 case 13 => 0xc30c8ea1 case 14 => 0x5a05df1b case _ => 0x2d02ef8d
  }

  // ---------- division, bit by bit ----------

  /** Addition of polynomials over GF(2), kept as a function so that sums stay symbolic. */
  function Add(x: bv32, y: bv32): bv32 { x ^ y }

  predicate Odd(c: bv32) { c & 1 == 1 }

  function Half(c: bv32): bv32 { c >> 1 }

  /** One bit of the division. */
  function Shifted(c: bv32): bv32 { if Odd(c) then Add(Half(c), POLYNOMIAL) else Half(c) }

  /** Eight bits. */
  function Byte(c: bv32): bv32 { Shifted(Shifted(Shifted(Shifted(Shifted(Shifted(Shifted(Shifted(c)))))))) }

  lemma Row0(low: bv32)
    requires low < 16
    ensures Table0(low) == Byte(0x00 | low)
  {
    match low
    case 0 => case 1 => case 2 => case 3 => case 4 => case 5 => case 6 => case 7 =>
    case 8 => case 9 => case 10 => case 11 => case 12 => case 13 => case 14 => case _ =>
  }

  lemma Row1(low: bv32)
    requires low < 16
    ensures Table1(low) == Byte(0x10 | low)
  {
    match low
    case 0 => case 1 => case 2 => case 3 => case 4 => case 5 => case 6 => case 7 =>
    case 8 => case 9 => case 10 => case 11 => case 12 => case 13 => case 14 => case _ =>
  }

  lemma Row2(low: bv32)
    requires low < 16
    ensures Table2(low) == Byte(0x20 | low)
  {
    match low
    case 0 => case 1 => case 2 => case 3 => case 4 => case 5 => case 6 => case 7 =>
    case 8 => case 9 => case 10 => case 11 => case 12 => case 13 => case 14 => case _ =>
  }

  lemma Row3(low: bv32)
    requires low < 16
    ensures Table3(low) == Byte(0x30 | low)
  {
    match low
    case 0 => case 1 => case 2 => case 3 => case 4 => case 5 => case 6 => case 7 =>
    case 8 => case 9 => case 10 => case 11 => case 12 => case 13 => case 14 => case _ =>
  }

  lemma Row4(low: bv32)
    requires low < 16
    ensures Table4(low) == Byte(0x40 | low)
  {
    match low
    case 0 => case 1 => case 2 => case 3 => case 4 => case 5 => case 6 => case 7 =>
    case 8 => case 9 => case 10 => case 11 => case 12 => case 13 => case 14 => case _ =>
  }

  lemma Row5(low: bv32)
    requires low < 16
    ensures Table5(low) == Byte(0x50 | low)
  {
    match low
    case 0 => case 1 => case 2 => case 3 => case 4 => case 5 => case 6 => case 7 =>
    case 8 => case 9 => case 10 => case 11 => case 12 => case 13 => case 14 => case _ =>
  }

  lemma Row6(low: bv32)
    requires low < 16
    ensures Table6(low) == Byte(0x60 | low)
  {
    match low
    case 0 => case 1 => case 2 => case 3 => case 4 => case 5 => case 6 => case 7 =>
    case 8 => case 9 => case 10 => case 11 => case 12 => case 13 => case 14 => case _ =>
  }

  lemma Row7(low: bv32)
    requires low < 16
    ensures Table7(low) == Byte(0x70 | low)
  {
    match low
    case 0 => case 1 => case 2 => case 3 => case 4 => case 5 => case 6 => case 7 =>
    case 8 => case 9 => case 10 => case 11 => case 12 => case 13 => case 14 => case _ =>
  }

  lemma Row8(low: bv32)
    requires low < 16
    ensures Table8(low) == Byte(0x80 | low)
  {
    match low
    case 0 => case 1 => case 2 => case 3 => case 4 => case 5 => case 6 => case 7 =>
    case 8 => case 9 => case 10 => case 11 => case 12 => case 13 => case 14 => case _ =>
  }

  lemma Row9(low: bv32)
    requires low < 16
    ensures Table9(low) == Byte(0x90 | low)
  {
    match low
    case 0 => case 1 => case 2 => case 3 => case 4 => case 5 => case 6 => case 7 =>
    case 8 => case 9 => case 10 => case 11 => case 12 => case 13 => case 14 => case _ =>
  }

  lemma RowA(low: bv32)
    requires low < 16
    ensures TableA(low) == Byte(0xa0 | low)
  {
    match low
    case 0 => case 1 => case 2 => case 3 => case 4 => case 5 => case 6 => case 7 =>
    case 8 => case 9 => case 10 => case 11 => case 12 => case 13 => case 14 => case _ =>
  }

  lemma RowB(low: bv32)
    requires low < 16
    ensures TableB(low) == Byte(0xb0 | low)
  {
    match low
    case 0 => case 1 => case 2 => case 3 => case 4 => case 5 => case 6 => case 7 =>
    case 8 => case 9 => case 10 => case 11 => case 12 => case 13 => case 14 => case _ =>
  }

  lemma RowC(low: bv32)
    requires low < 16
    ensures TableC(low) == Byte(0xc0 | low)
  {
    match low
    case 0 => case 1 => case 2 => case 3 => case 4 => case 5 => case 6 => case 7 =>
    case 8 => case 9 => case 10 => case 11 => case 12 => case 13 => case 14 => case _ =>
  }

  lemma RowD(low: bv32)
    requires low < 16
    ensures TableD(low) == Byte(0xd0 | low)
  {
    match low
    case 0 => case 1 => case 2 => case 3 => case 4 => case 5 => case 6 => case 7 =>
    case 8 => case 9 => case 10 => case 11 => case 12 => case 13 => case 14 => case _ =>
  }

  lemma RowE(low: bv32)
    requires low < 16
    ensures TableE(low) == Byte(0xe0 | low)
  {
    match low
    case 0 => case 1 => case 2 => case 3 => case 4 => case 5 => case 6 => case 7 =>
    case 8 => case 9 => case 10 => case 11 => case 12 => case 13 => case 14 => case _ =>
  }

  lemma RowF(low: bv32)
    requires low < 16
    ensures TableF(low) == Byte(0xf0 | low)
  {
    match low
    case 0 => case 1 => case 2 => case 3 => case 4 => case 5 => case 6 => case 7 =>
    case 8 => case 9 => case 10 => case 11 => case 12 => case 13 => case 14 => case _ =>
  }

  /** Every entry of the table is the division of its index. */
  lemma TableIsByte(x: bv32)
    requires x < 256
    ensures Table(x) == Byte(x)
  {
    hide Byte, Table0, Table1, Table2, Table3, Table4, Table5, Table6, Table7;
    hide Table8, Table9, TableA, TableB, TableC, TableD, TableE, TableF;
    var low := x & 0x0f;
    match x >> 4
    case 0 => Row0(low);
    case 1 => Row1(low);
    case 2 => Row2(low);
    case 3 => Row3(low);
    case 4 => Row4(low);
    case 5 => Row5(low);
    case 6 => Row6(low);
    case 7 => Row7(low);
    case 8 => Row8(low);
    case 9 => Row9(low);
    case 10 => RowA(low);
    case 11 => RowB(low);
    case 12 => RowC(low);
    case 13 => RowD(low);
    case 14 => RowE(low);
    case _ => RowF(low);
  }

  lemma AddComm(x: bv32, y: bv32)
    ensures Add(x, y) == Add(y, x)
  {
  }

  lemma AddAssoc(x: bv32, y: bv32, z: bv32)
    ensures Add(Add(x, y), z) == Add(x, Add(y, z))
  {
  }

  lemma AddTwice(x: bv32, y: bv32)
    ensures Add(Add(x, y), y) == x
  {
  }

  lemma HalfLinear(x: bv32, y: bv32)
    ensures Half(Add(x, y)) == Add(Half(x), Half(y))
  {
  }

  lemma OddLinear(x: bv32, y: bv32)
    ensures Odd(Add(x, y)) == (Odd(x) != Odd(y))
  {
  }

  lemma ShiftedLinear(x: bv32, y: bv32)
    ensures Shifted(Add(x, y)) == Add(Shifted(x), Shifted(y))
  {
    hide Odd, Half, Add;
    HalfLinear(x, y); OddLinear(x, y);
    var (p, q, g) := (Half(x), Half(y), POLYNOMIAL);
    AddAssoc(p, q, g); AddAssoc(p, g, q); AddComm(q, g);
    AddAssoc(Add(p, g), q, g); AddTwice(Add(p, g), q); AddTwice(Add(p, q), g);
  }

  lemma ByteLinear(x: bv32, y: bv32)
    ensures Byte(Add(x, y)) == Add(Byte(x), Byte(y))
  {
    hide Shifted, Add;
    var (x1, y1) := (Shifted(x), Shifted(y));
    var (x2, y2) := (Shifted(x1), Shifted(y1));
    var (x3, y3) := (Shifted(x2), Shifted(y2));
    var (x4, y4) := (Shifted(x3), Shifted(y3));
    var (x5, y5) := (Shifted(x4), Shifted(y4));
    var (x6, y6) := (Shifted(x5), Shifted(y5));
    var (x7, y7) := (Shifted(x6), Shifted(y6));
    ShiftedLinear(x, y); ShiftedLinear(x1, y1); ShiftedLinear(x2, y2); ShiftedLinear(x3, y3);
    ShiftedLinear(x4, y4); ShiftedLinear(x5, y5); ShiftedLinear(x6, y6); ShiftedLinear(x7, y7);
  }

  /** Eight zero bits at the bottom are simply shifted out. */
  lemma ByteOfHigh(v: bv32)
    requires v & 0xff == 0
    ensures Byte(v) == v >> 8
  {
  }

  function High(x: bv32): bv32 { x & 0xffffff00 }

  function Low(x: bv32): bv32 { x & 0xff }

  lemma Halves(x: bv32)
    ensures Add(High(x), Low(x)) == x && High(x) & 0xff == 0 && Low(x) < 256 && High(x) >> 8 == x >> 8
  {
  }

  function Wide(b: bv8): bv32 { b as bv32 }

  lemma WideIsByte(b: bv8, c: bv32)
    ensures Add(c, Wide(b)) >> 8 == c >> 8
  {
  }

  /** One turn of the table loops. */
  function TableStep(c: bv32, b: bv8): bv32 {
    var index := Low(Add(c, Wide(b)));
    assert index < 256 by {
      Halves(Add(c, Wide(b)));
    }
    Add(c >> 8, Table(index))
  }

  /** A byte of the message, bit by bit. */
  function BitStep(c: bv32, b: bv8): bv32 { Byte(Add(c, Wide(b))) }

  /** The fast step is the slow one. */
  lemma StepsAgree(c: bv32, b: bv8)
    ensures TableStep(c, b) == BitStep(c, b)
  {
    hide Byte, Table, Wide, Add, High, Low;
    var x := Add(c, Wide(b));
    Halves(x);
    WideIsByte(b, c);
    ByteLinear(High(x), Low(x));
    ByteOfHigh(High(x));
    TableIsByte(Low(x));
  }

  function Divided(c: bv32, s: seq<bv8>): bv32 {
    if s == [] then c else BitStep(Divided(c, s[..|s| - 1]), s[|s| - 1])
  }

  /** The checksum by division, continued from the checksum of what came before. */
  function Crc(s: seq<bv8>, crc: bv32): bv32 { Not(Divided(Not(crc), s)) }

  function Not(x: bv32): bv32 { !x }

  lemma {:induction false} DividedConcat(c: bv32, s: seq<bv8>, t: seq<bv8>)
    ensures Divided(c, s + t) == Divided(Divided(c, s), t)
  {
    hide BitStep;
    if t == [] {
      assert s + t == s;
    } else {
      DividedConcat(c, s, t[..|t| - 1]);
      assert (s + t)[..|s + t| - 1] == s + t[..|t| - 1];
    }
  }

  lemma NotNot(x: bv32)
    ensures Not(Not(x)) == x
  {
  }

  /** The checksum of a concatenation is the checksum of the second part continued from that of the first. */
  lemma CrcConcat(s: seq<bv8>, t: seq<bv8>, crc: bv32)
    ensures Crc(t, Crc(s, crc)) == Crc(s + t, crc)
  {
    hide Divided, Not;
    NotNot(Divided(Not(crc), s));
    DividedConcat(Not(crc), s, t);
  }

  /** crc32. */
  method Checksum(buff: array<bv8>, len: nat, seed: bv32) returns (crc: bv32)
    requires len <= buff.Length
    ensures crc == Crc(buff[..len], seed)
  {
    hide TableStep, BitStep;
    crc := Not(seed);
    var i := 0;
    while i < len
      invariant 0 <= i <= len && crc == Divided(Not(seed), buff[..i])
    {
      StepsAgree(crc, buff[i]);
      crc := TableStep(crc, buff[i]);
      i := i + 1;
      assert buff[..i][..i - 1] == buff[..i - 1];
    }
    crc := Not(crc);
  }

  /** crc32_com: the same checksum from seed zero. */
  method ChecksumCom(buff: array<bv8>, size: nat) returns (r: bv32)
    requires size <= buff.Length
    ensures r == Crc(buff[..size], 0)
  {
    hide TableStep, BitStep;
    var crc: bv32 := 0xFFFFFFFF;
    var i := 0;
    while i < size
      invariant 0 <= i <= size && crc == Divided(0xFFFFFFFF, buff[..i])
    {
      StepsAgree(crc, buff[i]);
      crc := TableStep(crc, buff[i]);
      i := i + 1;
      assert buff[..i][..i - 1] == buff[..i - 1];
    }
    r := crc ^ 0xFFFFFFFF;
    XorIsNot(crc);
  }

  lemma XorIsNot(x: bv32)
    ensures x ^ 0xFFFFFFFF == Not(x) && Not(0) == 0xFFFFFFFF
  {
  }

  // ---------- what the checksum detects ----------

  lemma ShiftedInjective(x: bv32, y: bv32)
    requires Shifted(x) == Shifted(y)
    ensures x == y
  {
  }

  lemma ByteInjective(x: bv32, y: bv32)
    requires Byte(x) == Byte(y)
    ensures x == y
  {
    hide Shifted;
    var (x1, y1) := (Shifted(x), Shifted(y));
    var (x2, y2) := (Shifted(x1), Shifted(y1));
    var (x3, y3) := (Shifted(x2), Shifted(y2));
    var (x4, y4) := (Shifted(x3), Shifted(y3));
    var (x5, y5) := (Shifted(x4), Shifted(y4));
    var (x6, y6) := (Shifted(x5), Shifted(y5));
    var (x7, y7) := (Shifted(x6), Shifted(y6));
    ShiftedInjective(x7, y7); ShiftedInjective(x6, y6); ShiftedInjective(x5, y5); ShiftedInjective(x4, y4);
    ShiftedInjective(x3, y3); ShiftedInjective(x2, y2); ShiftedInjective(x1, y1); ShiftedInjective(x, y);
  }

  /** Different states stay different whatever follows. */
  lemma {:induction false} DividedInjective(c: bv32, d: bv32, s: seq<bv8>)
    requires Divided(c, s) == Divided(d, s)
    ensures c == d
  {
    hide Byte, Wide, Add;
    if s != [] {
      var (x, y, b) := (Divided(c, s[..|s| - 1]), Divided(d, s[..|s| - 1]), Wide(s[|s| - 1]));
      ByteInjective(Add(x, b), Add(y, b));
      AddTwice(x, b); AddTwice(y, b);
      DividedInjective(c, d, s[..|s| - 1]);
    }
  }

  /** A byte that enters one step later can be added one byte further up before the step. */
  lemma Later(w: bv32, v: bv32)
    requires v & 0xff == 0
    ensures Byte(Add(w, v)) == Add(Byte(w), v >> 8)
  {
    hide Byte, Add;
    ByteLinear(w, v);
    ByteOfHigh(v);
  }

  /** A byte at place k of a word. */
  function Lane(b: bv8, k: nat): bv32
    requires k < 4
  {
    if k == 0 then Wide(b) else if k == 1 then Wide(b) << 8 else if k == 2 then Wide(b) << 16 else Wide(b) << 24
  }

  lemma PlacedLater(w: bv32, b: bv8, k: nat)
    requires 1 <= k < 4
    ensures Byte(Add(w, Lane(b, k))) == Add(Byte(w), Lane(b, k - 1))
  {
    hide Byte, Add, Lane;
    UpAndDown(b, k);
    Later(w, Lane(b, k));
  }

  lemma UpAndDown(b: bv8, k: nat)
    requires 1 <= k < 4
    ensures Lane(b, k) & 0xff == 0 && Lane(b, k) >> 8 == Lane(b, k - 1)
  {
  }

  /** Four bytes as one word. */
  function Packed(a: bv8, b: bv8, c: bv8, d: bv8): bv32 {
    Add(Lane(a, 0), Add(Lane(b, 1), Add(Lane(c, 2), Lane(d, 3))))
  }

  lemma PackedInjective(a: bv8, b: bv8, c: bv8, d: bv8, e: bv8, f: bv8, g: bv8, h: bv8)
    requires Packed(a, b, c, d) == Packed(e, f, g, h)
    ensures a == e && b == f && c == g && d == h
  {
  }

  /** Four bytes in a row act like one word that is added before four steps. */
  lemma FourBytes(c: bv32, p: bv8, q: bv8, r: bv8, s: bv8)
    ensures BitStep(BitStep(BitStep(BitStep(c, p), q), r), s) == Byte(Byte(Byte(Byte(Add(c, Packed(p, q, r, s))))))
  {
    StepPlaced(c, p);
    hide Byte, Lane, Add, BitStep;
    var x0 := Add(c, Lane(p, 0));
    var x1 := Add(x0, Lane(q, 1));
    var x2 := Add(x1, Lane(r, 2));
    var x3 := Add(x2, Lane(s, 3));
    StepPlaced(Byte(x0), q);
    PlacedLater(x0, q, 1);
    StepPlaced(Byte(Byte(x1)), r);
    PlacedLater(Byte(x1), r, 1); PlacedLater(x1, r, 2);
    StepPlaced(Byte(Byte(Byte(x2))), s);
    PlacedLater(Byte(Byte(x2)), s, 1); PlacedLater(Byte(x2), s, 2); PlacedLater(x2, s, 3);
    AddAssoc(x1, Lane(r, 2), Lane(s, 3));
    AddAssoc(x0, Lane(q, 1), Add(Lane(r, 2), Lane(s, 3)));
    AddAssoc(c, Lane(p, 0), Add(Lane(q, 1), Add(Lane(r, 2), Lane(s, 3))));
  }

  lemma StepPlaced(c: bv32, b: bv8)
    ensures BitStep(c, b) == Byte(Add(c, Lane(b, 0)))
  {
    hide Byte, Add;
  }

  lemma OneStep(c: bv32, p: bv8)
    ensures Divided(c, [p]) == BitStep(c, p)
  {
    hide BitStep;
    assert [p][..0] == [];
    assert Divided(c, []) == c;
  }

  lemma TwoSteps(c: bv32, p: bv8, q: bv8)
    ensures Divided(c, [p, q]) == BitStep(BitStep(c, p), q)
  {
    hide BitStep;
    OneStep(c, p); OneStep(Divided(c, [p]), q);
    hide Divided;
    DividedConcat(c, [p], [q]);
    assert [p] + [q] == [p, q];
  }

  lemma FourSteps(c: bv32, p: bv8, q: bv8, r: bv8, s: bv8)
    ensures Divided(c, [p, q, r, s]) == BitStep(BitStep(BitStep(BitStep(c, p), q), r), s)
  {
    hide Divided, BitStep;
    TwoSteps(c, p, q);
    TwoSteps(Divided(c, [p, q]), r, s);
    DividedConcat(c, [p, q], [r, s]);
    assert [p, q] + [r, s] == [p, q, r, s];
  }

  lemma FourBack(x: bv32, y: bv32)
    requires Byte(Byte(Byte(Byte(x)))) == Byte(Byte(Byte(Byte(y))))
    ensures x == y
  {
    hide Byte;
    ByteInjective(Byte(Byte(Byte(x))), Byte(Byte(Byte(y))));
    ByteInjective(Byte(Byte(x)), Byte(Byte(y)));
    ByteInjective(Byte(x), Byte(y));
    ByteInjective(x, y);
  }

  lemma FourInjective(c: bv32, d: seq<bv8>, e: seq<bv8>)
    requires |d| == |e| == 4 && Divided(c, d) == Divided(c, e)
    ensures d == e
  {
    hide Byte, Divided, Packed, Add;
    FourAtOnce(c, d); FourAtOnce(c, e);
    var (p, q) := (Packed(d[0], d[1], d[2], d[3]), Packed(e[0], e[1], e[2], e[3]));
    FourBack(Add(c, p), Add(c, q));
    AddComm(c, p); AddComm(c, q); AddTwice(p, c); AddTwice(q, c);
    PackedInjective(d[0], d[1], d[2], d[3], e[0], e[1], e[2], e[3]);
  }

  lemma FourAtOnce(c: bv32, d: seq<bv8>)
    requires |d| == 4
    ensures Divided(c, d) == Byte(Byte(Byte(Byte(Add(c, Packed(d[0], d[1], d[2], d[3]))))))
  {
    hide Byte, Divided, BitStep, Packed, Add;
    FourSteps(c, d[0], d[1], d[2], d[3]);
    FourBytes(c, d[0], d[1], d[2], d[3]);
    assert d == [d[0], d[1], d[2], d[3]];
  }

  /** Any change within four consecutive bytes changes the checksum, wherever it is and whatever the seed. */
  lemma BurstDetected(s: seq<bv8>, d: seq<bv8>, e: seq<bv8>, t: seq<bv8>, crc: bv32)
    requires |d| == |e| <= 4
    ensures Crc(s + d + t, crc) == Crc(s + e + t, crc) <==> d == e
  {
    hide Divided, Not;
    if Crc(s + d + t, crc) == Crc(s + e + t, crc) {
      var c := Divided(Not(crc), s);
      NotNot(Divided(Not(crc), s + d + t)); NotNot(Divided(Not(crc), s + e + t));
      DividedConcat(Not(crc), s + d, t); DividedConcat(Not(crc), s + e, t);
      DividedConcat(Not(crc), s, d); DividedConcat(Not(crc), s, e);
      DividedInjective(Divided(c, d), Divided(c, e), t);
      var z := seq(4 - |d|, _ => 0 as bv8);
      DividedConcat(c, d, z); DividedConcat(c, e, z);
      FourInjective(c, d + z, e + z);
      assert d == (d + z)[..|d|] && e == (e + z)[..|d|];
    }
  }

  // ---------- the check value ----------

  /** One more byte. */
  lemma OneMore(s: seq<bv8>, b: bv8, c: bv32, d: bv32)
    requires Divided(0xFFFFFFFF, s) == c && BitStep(c, b) == d
    ensures Divided(0xFFFFFFFF, s + [b]) == d
  {
    hide BitStep;
    assert (s + [b])[..|s|] == s;
  }

  lemma CheckSteps()
    ensures BitStep(0xffffffff, 0x31) == 0x7c231048
    ensures BitStep(0x7c231048, 0x32) == 0xb0acbb32
    ensures BitStep(0xb0acbb32, 0x33) == 0x77b79c2d
    ensures BitStep(0x77b79c2d, 0x34) == 0x641c1f5c
    ensures BitStep(0x641c1f5c, 0x35) == 0x340ac5e3
    ensures BitStep(0x340ac5e3, 0x36) == 0xf68d2c9e
    ensures BitStep(0xf68d2c9e, 0x37) == 0xaffc9660
    ensures BitStep(0xaffc9660, 0x38) == 0x651f2550
    ensures BitStep(0x651f2550, 0x39) == 0x340bc6d9
  {
  }

  lemma CheckHalf()
    ensures Divided(0xFFFFFFFF, [0x31, 0x32, 0x33, 0x34, 0x35]) == 0x340ac5e3
  {
    CheckSteps();
    hide BitStep, Divided;
    NoDivision();
    OneMore([], 0x31, 0xffffffff, 0x7c231048);
    assert [] + [0x31 as bv8] == [0x31];
    OneMore([0x31], 0x32, 0x7c231048, 0xb0acbb32);
    assert [0x31 as bv8] + [0x32] == [0x31, 0x32];
    OneMore([0x31, 0x32], 0x33, 0xb0acbb32, 0x77b79c2d);
    assert [0x31 as bv8, 0x32] + [0x33] == [0x31, 0x32, 0x33];
    OneMore([0x31, 0x32, 0x33], 0x34, 0x77b79c2d, 0x641c1f5c);
    assert [0x31 as bv8, 0x32, 0x33] + [0x34] == [0x31, 0x32, 0x33, 0x34];
    OneMore([0x31, 0x32, 0x33, 0x34], 0x35, 0x641c1f5c, 0x340ac5e3);
    assert [0x31 as bv8, 0x32, 0x33, 0x34] + [0x35] == [0x31, 0x32, 0x33, 0x34, 0x35];
  }

  /** The checksum of "123456789" by which implementations of this CRC are recognised. */
  lemma CheckValue()
    ensures Crc([0x31, 0x32, 0x33, 0x34, 0x35, 0x36, 0x37, 0x38, 0x39], 0) == 0xCBF43926
  {
    CheckSteps();
    CheckHalf();
    hide BitStep, Divided;
    OneMore([0x31, 0x32, 0x33, 0x34, 0x35], 0x36, 0x340ac5e3, 0xf68d2c9e);
    assert [0x31 as bv8, 0x32, 0x33, 0x34, 0x35] + [0x36] == [0x31, 0x32, 0x33, 0x34, 0x35, 0x36];
    OneMore([0x31, 0x32, 0x33, 0x34, 0x35, 0x36], 0x37, 0xf68d2c9e, 0xaffc9660);
    assert [0x31 as bv8, 0x32, 0x33, 0x34, 0x35, 0x36] + [0x37] == [0x31, 0x32, 0x33, 0x34, 0x35, 0x36, 0x37];
    OneMore([0x31, 0x32, 0x33, 0x34, 0x35, 0x36, 0x37], 0x38, 0xaffc9660, 0x651f2550);
    assert [0x31 as bv8, 0x32, 0x33, 0x34, 0x35, 0x36, 0x37] + [0x38]
           == [0x31, 0x32, 0x33, 0x34, 0x35, 0x36, 0x37, 0x38];
    OneMore([0x31, 0x32, 0x33, 0x34, 0x35, 0x36, 0x37, 0x38], 0x39, 0x651f2550, 0x340bc6d9);
    assert [0x31 as bv8, 0x32, 0x33, 0x34, 0x35, 0x36, 0x37, 0x38] + [0x39]
           == [0x31, 0x32, 0x33, 0x34, 0x35, 0x36, 0x37, 0x38, 0x39];
    assert Not(0) == 0xFFFFFFFF && Not(Divided(0xFFFFFFFF, [0x31, 0x32, 0x33, 0x34, 0x35, 0x36, 0x37, 0x38, 0x39]))
           == 0xCBF43926;
  }

  lemma NoDivision()
    ensures Divided(0xFFFFFFFF, []) == 0xFFFFFFFF
  {
  }
}
