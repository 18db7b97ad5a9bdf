/** The cipher example of appendix C.1 of FIPS 197, round by round: key, round keys, the state at the start of each
    round and the cipher block. It ties the order of the layers, the use of the round keys and the key schedule to the
    standard itself. */
module AesKnown {
  import opened AesTables
  import opened AesSpec

  // ---------- the round keys and the state at the start of each round ----------

  const KEY_0: Block := [0x00, 0x01, 0x02, 0x03, 0x04, 0x05, 0x06, 0x07,
                        0x08, 0x09, 0x0a, 0x0b, 0x0c, 0x0d, 0x0e, 0x0f]
  const KEY_1: Block := [0xd6, 0xaa, 0x74, 0xfd, 0xd2, 0xaf, 0x72, 0xfa,
                        0xda, 0xa6, 0x78, 0xf1, 0xd6, 0xab, 0x76, 0xfe]
  const KEY_2: Block := [0xb6, 0x92, 0xcf, 0x0b, 0x64, 0x3d, 0xbd, 0xf1,
                        0xbe, 0x9b, 0xc5, 0x00, 0x68, 0x30, 0xb3, 0xfe]
  const KEY_3: Block := [0xb6, 0xff, 0x74, 0x4e, 0xd2, 0xc2, 0xc9, 0xbf,
                        0x6c, 0x59, 0x0c, 0xbf, 0x04, 0x69, 0xbf, 0x41]
  const KEY_4: Block := [0x47, 0xf7, 0xf7, 0xbc, 0x95, 0x35, 0x3e, 0x03,
                        0xf9, 0x6c, 0x32, 0xbc, 0xfd, 0x05, 0x8d, 0xfd]
  const KEY_5: Block := [0x3c, 0xaa, 0xa3, 0xe8, 0xa9, 0x9f, 0x9d, 0xeb,
                        0x50, 0xf3, 0xaf, 0x57, 0xad, 0xf6, 0x22, 0xaa]
  const KEY_6: Block := [0x5e, 0x39, 0x0f, 0x7d, 0xf7, 0xa6, 0x92, 0x96,
                        0xa7, 0x55, 0x3d, 0xc1, 0x0a, 0xa3, 0x1f, 0x6b]
  const KEY_7: Block := [0x14, 0xf9, 0x70, 0x1a, 0xe3, 0x5f, 0xe2, 0x8c,
                        0x44, 0x0a, 0xdf, 0x4d, 0x4e, 0xa9, 0xc0, 0x26]
  const KEY_8: Block := [0x47, 0x43, 0x87, 0x35, 0xa4, 0x1c, 0x65, 0xb9,
                        0xe0, 0x16, 0xba, 0xf4, 0xae, 0xbf, 0x7a, 0xd2]
  const KEY_9: Block := [0x54, 0x99, 0x32, 0xd1, 0xf0, 0x85, 0x57, 0x68,
                        0x10, 0x93, 0xed, 0x9c, 0xbe, 0x2c, 0x97, 0x4e]
  const KEY_10: Block := [0x13, 0x11, 0x1d, 0x7f, 0xe3, 0x94, 0x4a, 0x17,
                         0xf3, 0x07, 0xa7, 0x8b, 0x4d, 0x2b, 0x30, 0xc5]

  const START_1: Block := [0x00, 0x10, 0x20, 0x30, 0x40, 0x50, 0x60, 0x70,
                          0x80, 0x90, 0xa0, 0xb0, 0xc0, 0xd0, 0xe0, 0xf0]
  const START_2: Block := [0x89, 0xd8, 0x10, 0xe8, 0x85, 0x5a, 0xce, 0x68,
                          0x2d, 0x18, 0x43, 0xd8, 0xcb, 0x12, 0x8f, 0xe4]
  const START_3: Block := [0x49, 0x15, 0x59, 0x8f, 0x55, 0xe5, 0xd7, 0xa0,
                          0xda, 0xca, 0x94, 0xfa, 0x1f, 0x0a, 0x63, 0xf7]
  const START_4: Block := [0xfa, 0x63, 0x6a, 0x28, 0x25, 0xb3, 0x39, 0xc9,
                          0x40, 0x66, 0x8a, 0x31, 0x57, 0x24, 0x4d, 0x17]
  const START_5: Block := [0x24, 0x72, 0x40, 0x23, 0x69, 0x66, 0xb3, 0xfa,
                          0x6e, 0xd2, 0x75, 0x32, 0x88, 0x42, 0x5b, 0x6c]
  const START_6: Block := [0xc8, 0x16, 0x77, 0xbc, 0x9b, 0x7a, 0xc9, 0x3b,
                          0x25, 0x02, 0x79, 0x92, 0xb0, 0x26, 0x19, 0x96]
  const START_7: Block := [0xc6, 0x2f, 0xe1, 0x09, 0xf7, 0x5e, 0xed, 0xc3,
                          0xcc, 0x79, 0x39, 0x5d, 0x84, 0xf9, 0xcf, 0x5d]
  const START_8: Block := [0xd1, 0x87, 0x6c, 0x0f, 0x79, 0xc4, 0x30, 0x0a,
                          0xb4, 0x55, 0x94, 0xad, 0xd6, 0x6f, 0xf4, 0x1f]
  const START_9: Block := [0xfd, 0xe3, 0xba, 0xd2, 0x05, 0xe5, 0xd0, 0xd7,
                          0x35, 0x47, 0x96, 0x4e, 0xf1, 0xfe, 0x37, 0xf1]
  const START_10: Block := [0xbd, 0x6e, 0x7c, 0x3d, 0xf2, 0xb5, 0x77, 0x9e,
                           0x0b, 0x61, 0x21, 0x6e, 0x8b, 0x10, 0xb6, 0x89]

  const PLAIN: Block := [0x00, 0x11, 0x22, 0x33, 0x44, 0x55, 0x66, 0x77,
                         0x88, 0x99, 0xaa, 0xbb, 0xcc, 0xdd, 0xee, 0xff]

  const OUTPUT: Block := [0x69, 0xc4, 0xe0, 0xd8, 0x6a, 0x7b, 0x04, 0x30,
                          0xd8, 0xcd, 0xb7, 0x80, 0x70, 0xb4, 0xc5, 0x5a]

  function RoundKey(r: nat): Block
    requires r <= 10
  {
    match r
    case 0 => KEY_0 case 1 => KEY_1 case 2 => KEY_2 case 3 => KEY_3 case 4 => KEY_4 case 5 => KEY_5
    case 6 => KEY_6 case 7 => KEY_7 case 8 => KEY_8 case 9 => KEY_9 case _ => KEY_10
  }

  function Start(r: nat): Block
    requires 1 <= r <= 10
  {
    match r
    case 1 => START_1 case 2 => START_2 case 3 => START_3 case 4 => START_4 case 5 => START_5
    case 6 => START_6 case 7 => START_7 case 8 => START_8 case 9 => START_9 case _ => START_10
  }

  // ---------- one layer, spelled out ----------

  lemma SubSpelled(b: Block)
    ensures SubBytes(b) == [SBox(b[0]), SBox(b[1]), SBox(b[2]), SBox(b[3]), SBox(b[4]), SBox(b[5]), SBox(b[6]),
                            SBox(b[7]), SBox(b[8]), SBox(b[9]), SBox(b[10]), SBox(b[11]), SBox(b[12]), SBox(b[13]),
                            SBox(b[14]), SBox(b[15])]
  {
    hide SBox;
  }

  lemma XorSpelled(a: Block, b: Block)
    ensures Xor(a, b) == [a[0] ^ b[0], a[1] ^ b[1], a[2] ^ b[2], a[3] ^ b[3], a[4] ^ b[4], a[5] ^ b[5], a[6] ^ b[6],
                          a[7] ^ b[7], a[8] ^ b[8], a[9] ^ b[9], a[10] ^ b[10], a[11] ^ b[11], a[12] ^ b[12],
                          a[13] ^ b[13], a[14] ^ b[14], a[15] ^ b[15]]
  {
    XorAt(a, b);
    hide Xor;
  }

  lemma XorAt(a: Block, b: Block)
    ensures forall k: nat | k < 16 :: Xor(a, b)[k] == a[k] ^ b[k]
  {
  }

  lemma MixSpelled(b: Block)
    ensures MixColumns(b) == Joined(MixColumn([b[0], b[1], b[2], b[3]]), MixColumn([b[4], b[5], b[6], b[7]]),
                                    MixColumn([b[8], b[9], b[10], b[11]]), MixColumn([b[12], b[13], b[14], b[15]]))
  {
    hide MixColumn;
    assert b[0..4] == [b[0], b[1], b[2], b[3]] && b[4..8] == [b[4], b[5], b[6], b[7]];
    assert b[8..12] == [b[8], b[9], b[10], b[11]] && b[12..16] == [b[12], b[13], b[14], b[15]];
  }

  // ---------- the rounds ----------

  lemma Boxes1a()
    ensures SBox(0x00) == 0x63 && SBox(0x10) == 0xca && SBox(0x20) == 0xb7 && SBox(0x30) == 0x04
  {
  }

  lemma Boxes1b()
    ensures SBox(0x40) == 0x09 && SBox(0x50) == 0x53 && SBox(0x60) == 0xd0 && SBox(0x70) == 0x51
  {
  }

  lemma Boxes1c()
    ensures SBox(0x80) == 0xcd && SBox(0x90) == 0x60 && SBox(0xa0) == 0xe0 && SBox(0xb0) == 0xe7
  {
  }

  lemma Boxes1d()
    ensures SBox(0xc0) == 0xba && SBox(0xd0) == 0x70 && SBox(0xe0) == 0xe1 && SBox(0xf0) == 0x8c
  {
  }

  lemma Substituted1()
    ensures SubBytes(START_1)
         == [0x63, 0xca, 0xb7, 0x04, 0x09, 0x53, 0xd0, 0x51,
             0xcd, 0x60, 0xe0, 0xe7, 0xba, 0x70, 0xe1, 0x8c]
  {
    hide SBox, SubBytes;
    SubSpelled(START_1);
    Boxes1a(); Boxes1b(); Boxes1c(); Boxes1d();
  }

  lemma Columns1()
    ensures MixColumn([0x63, 0x53, 0xe0, 0x8c]) == [0x5f, 0x72, 0x64, 0x15]
    ensures MixColumn([0x09, 0x60, 0xe1, 0x04]) == [0x57, 0xf5, 0xbc, 0x92]
    ensures MixColumn([0xcd, 0x70, 0xb7, 0x51]) == [0xf7, 0xbe, 0x3b, 0x29]
    ensures MixColumn([0xba, 0xca, 0xd0, 0xe7]) == [0x1d, 0xb9, 0xf9, 0x1a]
  {
  }

  lemma Round1()
    ensures Xor(MixColumns(ShiftRows(SubBytes(START_1))), KEY_1) == START_2
  {
    hide SBox, SubBytes, MixColumn, MixColumns, Xor;
    Substituted1();
    var h: Block := [0x63, 0x53, 0xe0, 0x8c, 0x09, 0x60, 0xe1, 0x04,
                     0xcd, 0x70, 0xb7, 0x51, 0xba, 0xca, 0xd0, 0xe7];
    assert ShiftRows(SubBytes(START_1)) == h;
    Columns1();
    MixSpelled(h);
    var m: Block := [0x5f, 0x72, 0x64, 0x15, 0x57, 0xf5, 0xbc, 0x92,
                     0xf7, 0xbe, 0x3b, 0x29, 0x1d, 0xb9, 0xf9, 0x1a];
    assert MixColumns(h) == m;
    XorSpelled(m, KEY_1);
  }

  lemma Boxes2a()
    ensures SBox(0x89) == 0xa7 && SBox(0xd8) == 0x61 && SBox(0x10) == 0xca && SBox(0xe8) == 0x9b
  {
  }

  lemma Boxes2b()
    ensures SBox(0x85) == 0x97 && SBox(0x5a) == 0xbe && SBox(0xce) == 0x8b && SBox(0x68) == 0x45
  {
  }

  lemma Boxes2c()
    ensures SBox(0x2d) == 0xd8 && SBox(0x18) == 0xad && SBox(0x43) == 0x1a && SBox(0xd8) == 0x61
  {
  }

  lemma Boxes2d()
    ensures SBox(0xcb) == 0x1f && SBox(0x12) == 0xc9 && SBox(0x8f) == 0x73 && SBox(0xe4) == 0x69
  {
  }

  lemma Substituted2()
    ensures SubBytes(START_2)
         == [0xa7, 0x61, 0xca, 0x9b, 0x97, 0xbe, 0x8b, 0x45,
             0xd8, 0xad, 0x1a, 0x61, 0x1f, 0xc9, 0x73, 0x69]
  {
    hide SBox, SubBytes;
    SubSpelled(START_2);
    Boxes2a(); Boxes2b(); Boxes2c(); Boxes2d();
  }

  lemma Columns2()
    ensures MixColumn([0xa7, 0xbe, 0x1a, 0x69]) == [0xff, 0x87, 0x96, 0x84]
    ensures MixColumn([0x97, 0xad, 0x73, 0x9b]) == [0x31, 0xd8, 0x6a, 0x51]
    ensures MixColumn([0xd8, 0xc9, 0xca, 0x45]) == [0x64, 0x51, 0x51, 0xfa]
    ensures MixColumn([0x1f, 0x61, 0x8b, 0x61]) == [0x77, 0x3a, 0xd0, 0x09]
  {
  }

  lemma Round2()
    ensures Xor(MixColumns(ShiftRows(SubBytes(START_2))), KEY_2) == START_3
  {
    hide SBox, SubBytes, MixColumn, MixColumns, Xor;
    Substituted2();
    var h: Block := [0xa7, 0xbe, 0x1a, 0x69, 0x97, 0xad, 0x73, 0x9b,
                     0xd8, 0xc9, 0xca, 0x45, 0x1f, 0x61, 0x8b, 0x61];
    assert ShiftRows(SubBytes(START_2)) == h;
    Columns2();
    MixSpelled(h);
    var m: Block := [0xff, 0x87, 0x96, 0x84, 0x31, 0xd8, 0x6a, 0x51,
                     0x64, 0x51, 0x51, 0xfa, 0x77, 0x3a, 0xd0, 0x09];
    assert MixColumns(h) == m;
    XorSpelled(m, KEY_2);
  }

  lemma Boxes3a()
    ensures SBox(0x49) == 0x3b && SBox(0x15) == 0x59 && SBox(0x59) == 0xcb && SBox(0x8f) == 0x73
  {
  }

  lemma Boxes3b()
    ensures SBox(0x55) == 0xfc && SBox(0xe5) == 0xd9 && SBox(0xd7) == 0x0e && SBox(0xa0) == 0xe0
  {
  }

  lemma Boxes3c()
    ensures SBox(0xda) == 0x57 && SBox(0xca) == 0x74 && SBox(0x94) == 0x22 && SBox(0xfa) == 0x2d
  {
  }

  lemma Boxes3d()
    ensures SBox(0x1f) == 0xc0 && SBox(0x0a) == 0x67 && SBox(0x63) == 0xfb && SBox(0xf7) == 0x68
  {
  }

  lemma Substituted3()
    ensures SubBytes(START_3)
         == [0x3b, 0x59, 0xcb, 0x73, 0xfc, 0xd9, 0x0e, 0xe0,
             0x57, 0x74, 0x22, 0x2d, 0xc0, 0x67, 0xfb, 0x68]
  {
    hide SBox, SubBytes;
    SubSpelled(START_3);
    Boxes3a(); Boxes3b(); Boxes3c(); Boxes3d();
  }

  lemma Columns3()
    ensures MixColumn([0x3b, 0xd9, 0x22, 0x68]) == [0x4c, 0x9c, 0x1e, 0x66]
    ensures MixColumn([0xfc, 0x74, 0xfb, 0x73]) == [0xf7, 0x71, 0xf0, 0x76]
    ensures MixColumn([0x57, 0x67, 0xcb, 0xe0]) == [0x2c, 0x3f, 0x86, 0x8e]
    ensures MixColumn([0xc0, 0x59, 0x0e, 0x2d]) == [0x53, 0x4d, 0xf2, 0x56]
  {
  }

  lemma Round3()
    ensures Xor(MixColumns(ShiftRows(SubBytes(START_3))), KEY_3) == START_4
  {
    hide SBox, SubBytes, MixColumn, MixColumns, Xor;
    Substituted3();
    var h: Block := [0x3b, 0xd9, 0x22, 0x68, 0xfc, 0x74, 0xfb, 0x73,
                     0x57, 0x67, 0xcb, 0xe0, 0xc0, 0x59, 0x0e, 0x2d];
    assert ShiftRows(SubBytes(START_3)) == h;
    Columns3();
    MixSpelled(h);
    var m: Block := [0x4c, 0x9c, 0x1e, 0x66, 0xf7, 0x71, 0xf0, 0x76,
                     0x2c, 0x3f, 0x86, 0x8e, 0x53, 0x4d, 0xf2, 0x56];
    assert MixColumns(h) == m;
    XorSpelled(m, KEY_3);
  }

  lemma Boxes4a()
    ensures SBox(0xfa) == 0x2d && SBox(0x63) == 0xfb && SBox(0x6a) == 0x02 && SBox(0x28) == 0x34
  {
  }

  lemma Boxes4b()
    ensures SBox(0x25) == 0x3f && SBox(0xb3) == 0x6d && SBox(0x39) == 0x12 && SBox(0xc9) == 0xdd
  {
  }

  lemma Boxes4c()
    ensures SBox(0x40) == 0x09 && SBox(0x66) == 0x33 && SBox(0x8a) == 0x7e && SBox(0x31) == 0xc7
  {
  }

  lemma Boxes4d()
    ensures SBox(0x57) == 0x5b && SBox(0x24) == 0x36 && SBox(0x4d) == 0xe3 && SBox(0x17) == 0xf0
  {
  }

  lemma Substituted4()
    ensures SubBytes(START_4)
         == [0x2d, 0xfb, 0x02, 0x34, 0x3f, 0x6d, 0x12, 0xdd,
             0x09, 0x33, 0x7e, 0xc7, 0x5b, 0x36, 0xe3, 0xf0]
  {
    hide SBox, SubBytes;
    SubSpelled(START_4);
    Boxes4a(); Boxes4b(); Boxes4c(); Boxes4d();
  }

  lemma Columns4()
    ensures MixColumn([0x2d, 0x6d, 0x7e, 0xf0]) == [0x63, 0x85, 0xb7, 0x9f]
    ensures MixColumn([0x3f, 0x33, 0xe3, 0x34]) == [0xfc, 0x53, 0x8d, 0xf9]
    ensures MixColumn([0x09, 0x36, 0x02, 0xdd]) == [0x97, 0xbe, 0x47, 0x8e]
    ensures MixColumn([0x5b, 0xfb, 0x12, 0xc7]) == [0x75, 0x47, 0xd6, 0x91]
  {
  }

  lemma Round4()
    ensures Xor(MixColumns(ShiftRows(SubBytes(START_4))), KEY_4) == START_5
  {
    hide SBox, SubBytes, MixColumn, MixColumns, Xor;
    Substituted4();
    var h: Block := [0x2d, 0x6d, 0x7e, 0xf0, 0x3f, 0x33, 0xe3, 0x34,
                     0x09, 0x36, 0x02, 0xdd, 0x5b, 0xfb, 0x12, 0xc7];
    assert ShiftRows(SubBytes(START_4)) == h;
    Columns4();
    MixSpelled(h);
    var m: Block := [0x63, 0x85, 0xb7, 0x9f, 0xfc, 0x53, 0x8d, 0xf9,
                     0x97, 0xbe, 0x47, 0x8e, 0x75, 0x47, 0xd6, 0x91];
    assert MixColumns(h) == m;
    XorSpelled(m, KEY_4);
  }

  lemma Boxes5a()
    ensures SBox(0x24) == 0x36 && SBox(0x72) == 0x40 && SBox(0x40) == 0x09 && SBox(0x23) == 0x26
  {
  }

  lemma Boxes5b()
    ensures SBox(0x69) == 0xf9 && SBox(0x66) == 0x33 && SBox(0xb3) == 0x6d && SBox(0xfa) == 0x2d
  {
  }

  lemma Boxes5c()
    ensures SBox(0x6e) == 0x9f && SBox(0xd2) == 0xb5 && SBox(0x75) == 0x9d && SBox(0x32) == 0x23
  {
  }

  lemma Boxes5d()
    ensures SBox(0x88) == 0xc4 && SBox(0x42) == 0x2c && SBox(0x5b) == 0x39 && SBox(0x6c) == 0x50
  {
  }

  lemma Substituted5()
    ensures SubBytes(START_5)
         == [0x36, 0x40, 0x09, 0x26, 0xf9, 0x33, 0x6d, 0x2d,
             0x9f, 0xb5, 0x9d, 0x23, 0xc4, 0x2c, 0x39, 0x50]
  {
    hide SBox, SubBytes;
    SubSpelled(START_5);
    Boxes5a(); Boxes5b(); Boxes5c(); Boxes5d();
  }

  lemma Columns5()
    ensures MixColumn([0x36, 0x33, 0x9d, 0x50]) == [0xf4, 0xbc, 0xd4, 0x54]
    ensures MixColumn([0xf9, 0xb5, 0x39, 0x26]) == [0x32, 0xe5, 0x54, 0xd0]
    ensures MixColumn([0x9f, 0x2c, 0x09, 0x2d]) == [0x75, 0xf1, 0xd6, 0xc5]
    ensures MixColumn([0xc4, 0x40, 0x6d, 0x23]) == [0x1d, 0xd0, 0x3b, 0x3c]
  {
  }

  lemma Round5()
    ensures Xor(MixColumns(ShiftRows(SubBytes(START_5))), KEY_5) == START_6
  {
    hide SBox, SubBytes, MixColumn, MixColumns, Xor;
    Substituted5();
    var h: Block := [0x36, 0x33, 0x9d, 0x50, 0xf9, 0xb5, 0x39, 0x26,
                     0x9f, 0x2c, 0x09, 0x2d, 0xc4, 0x40, 0x6d, 0x23];
    assert ShiftRows(SubBytes(START_5)) == h;
    Columns5();
    MixSpelled(h);
    var m: Block := [0xf4, 0xbc, 0xd4, 0x54, 0x32, 0xe5, 0x54, 0xd0,
                     0x75, 0xf1, 0xd6, 0xc5, 0x1d, 0xd0, 0x3b, 0x3c];
    assert MixColumns(h) == m;
    XorSpelled(m, KEY_5);
  }

  lemma Boxes6a()
    ensures SBox(0xc8) == 0xe8 && SBox(0x16) == 0x47 && SBox(0x77) == 0xf5 && SBox(0xbc) == 0x65
  {
  }

  lemma Boxes6b()
    ensures SBox(0x9b) == 0x14 && SBox(0x7a) == 0xda && SBox(0xc9) == 0xdd && SBox(0x3b) == 0xe2
  {
  }

  lemma Boxes6c()
    ensures SBox(0x25) == 0x3f && SBox(0x02) == 0x77 && SBox(0x79) == 0xb6 && SBox(0x92) == 0x4f
  {
  }

  lemma Boxes6d()
    ensures SBox(0xb0) == 0xe7 && SBox(0x26) == 0xf7 && SBox(0x19) == 0xd4 && SBox(0x96) == 0x90
  {
  }

  lemma Substituted6()
    ensures SubBytes(START_6)
         == [0xe8, 0x47, 0xf5, 0x65, 0x14, 0xda, 0xdd, 0xe2,
             0x3f, 0x77, 0xb6, 0x4f, 0xe7, 0xf7, 0xd4, 0x90]
  {
    hide SBox, SubBytes;
    SubSpelled(START_6);
    Boxes6a(); Boxes6b(); Boxes6c(); Boxes6d();
  }

  lemma Columns6()
    ensures MixColumn([0xe8, 0xda, 0xb6, 0x90]) == [0x98, 0x16, 0xee, 0x74]
    ensures MixColumn([0x14, 0x77, 0xd4, 0x65]) == [0x00, 0xf8, 0x7f, 0x55]
    ensures MixColumn([0x3f, 0xf7, 0xf5, 0xe2]) == [0x6b, 0x2c, 0x04, 0x9c]
    ensures MixColumn([0xe7, 0x47, 0xdd, 0x4f]) == [0x8e, 0x5a, 0xd0, 0x36]
  {
  }

  lemma Round6()
    ensures Xor(MixColumns(ShiftRows(SubBytes(START_6))), KEY_6) == START_7
  {
    hide SBox, SubBytes, MixColumn, MixColumns, Xor;
    Substituted6();
    var h: Block := [0xe8, 0xda, 0xb6, 0x90, 0x14, 0x77, 0xd4, 0x65,
                     0x3f, 0xf7, 0xf5, 0xe2, 0xe7, 0x47, 0xdd, 0x4f];
    assert ShiftRows(SubBytes(START_6)) == h;
    Columns6();
    MixSpelled(h);
    var m: Block := [0x98, 0x16, 0xee, 0x74, 0x00, 0xf8, 0x7f, 0x55,
                     0x6b, 0x2c, 0x04, 0x9c, 0x8e, 0x5a, 0xd0, 0x36];
    assert MixColumns(h) == m;
    XorSpelled(m, KEY_6);
  }

  lemma Boxes7a()
    ensures SBox(0xc6) == 0xb4 && SBox(0x2f) == 0x15 && SBox(0xe1) == 0xf8 && SBox(0x09) == 0x01
  {
  }

  lemma Boxes7b()
    ensures SBox(0xf7) == 0x68 && SBox(0x5e) == 0x58 && SBox(0xed) == 0x55 && SBox(0xc3) == 0x2e
  {
  }

  lemma Boxes7c()
    ensures SBox(0xcc) == 0x4b && SBox(0x79) == 0xb6 && SBox(0x39) == 0x12 && SBox(0x5d) == 0x4c
  {
  }

  lemma Boxes7d()
    ensures SBox(0x84) == 0x5f && SBox(0xf9) == 0x99 && SBox(0xcf) == 0x8a && SBox(0x5d) == 0x4c
  {
  }

  lemma Substituted7()
    ensures SubBytes(START_7)
         == [0xb4, 0x15, 0xf8, 0x01, 0x68, 0x58, 0x55, 0x2e,
             0x4b, 0xb6, 0x12, 0x4c, 0x5f, 0x99, 0x8a, 0x4c]
  {
    hide SBox, SubBytes;
    SubSpelled(START_7);
    Boxes7a(); Boxes7b(); Boxes7c(); Boxes7d();
  }

  lemma Columns7()
    ensures MixColumn([0xb4, 0x58, 0x12, 0x4c]) == [0xc5, 0x7e, 0x1c, 0x15]
    ensures MixColumn([0x68, 0xb6, 0x8a, 0x01]) == [0x9a, 0x9b, 0xd2, 0x86]
    ensures MixColumn([0x4b, 0x99, 0xf8, 0x2e]) == [0xf0, 0x5f, 0x4b, 0xe0]
    ensures MixColumn([0x5f, 0x15, 0x55, 0x4c]) == [0x98, 0xc6, 0x34, 0x39]
  {
  }

  lemma Round7()
    ensures Xor(MixColumns(ShiftRows(SubBytes(START_7))), KEY_7) == START_8
  {
    hide SBox, SubBytes, MixColumn, MixColumns, Xor;
    Substituted7();
    var h: Block := [0xb4, 0x58, 0x12, 0x4c, 0x68, 0xb6, 0x8a, 0x01,
                     0x4b, 0x99, 0xf8, 0x2e, 0x5f, 0x15, 0x55, 0x4c];
    assert ShiftRows(SubBytes(START_7)) == h;
    Columns7();
    MixSpelled(h);
    var m: Block := [0xc5, 0x7e, 0x1c, 0x15, 0x9a, 0x9b, 0xd2, 0x86,
                     0xf0, 0x5f, 0x4b, 0xe0, 0x98, 0xc6, 0x34, 0x39];
    assert MixColumns(h) == m;
    XorSpelled(m, KEY_7);
  }

  lemma Boxes8a()
    ensures SBox(0xd1) == 0x3e && SBox(0x87) == 0x17 && SBox(0x6c) == 0x50 && SBox(0x0f) == 0x76
  {
  }

  lemma Boxes8b()
    ensures SBox(0x79) == 0xb6 && SBox(0xc4) == 0x1c && SBox(0x30) == 0x04 && SBox(0x0a) == 0x67
  {
  }

  lemma Boxes8c()
    ensures SBox(0xb4) == 0x8d && SBox(0x55) == 0xfc && SBox(0x94) == 0x22 && SBox(0xad) == 0x95
  {
  }

  lemma Boxes8d()
    ensures SBox(0xd6) == 0xf6 && SBox(0x6f) == 0xa8 && SBox(0xf4) == 0xbf && SBox(0x1f) == 0xc0
  {
  }

  lemma Substituted8()
    ensures SubBytes(START_8)
         == [0x3e, 0x17, 0x50, 0x76, 0xb6, 0x1c, 0x04, 0x67,
             0x8d, 0xfc, 0x22, 0x95, 0xf6, 0xa8, 0xbf, 0xc0]
  {
    hide SBox, SubBytes;
    SubSpelled(START_8);
    Boxes8a(); Boxes8b(); Boxes8c(); Boxes8d();
  }

  lemma Columns8()
    ensures MixColumn([0x3e, 0x1c, 0x22, 0xc0]) == [0xba, 0xa0, 0x3d, 0xe7]
    ensures MixColumn([0xb6, 0xfc, 0xbf, 0x76]) == [0xa1, 0xf9, 0xb5, 0x6e]
    ensures MixColumn([0x8d, 0xa8, 0x50, 0x67]) == [0xd5, 0x51, 0x2c, 0xba]
    ensures MixColumn([0xf6, 0x17, 0x04, 0x95]) == [0x5f, 0x41, 0x4d, 0x23]
  {
  }

  lemma Round8()
    ensures Xor(MixColumns(ShiftRows(SubBytes(START_8))), KEY_8) == START_9
  {
    hide SBox, SubBytes, MixColumn, MixColumns, Xor;
    Substituted8();
    var h: Block := [0x3e, 0x1c, 0x22, 0xc0, 0xb6, 0xfc, 0xbf, 0x76,
                     0x8d, 0xa8, 0x50, 0x67, 0xf6, 0x17, 0x04, 0x95];
    assert ShiftRows(SubBytes(START_8)) == h;
    Columns8();
    MixSpelled(h);
    var m: Block := [0xba, 0xa0, 0x3d, 0xe7, 0xa1, 0xf9, 0xb5, 0x6e,
                     0xd5, 0x51, 0x2c, 0xba, 0x5f, 0x41, 0x4d, 0x23];
    assert MixColumns(h) == m;
    XorSpelled(m, KEY_8);
  }

  lemma Boxes9a()
    ensures SBox(0xfd) == 0x54 && SBox(0xe3) == 0x11 && SBox(0xba) == 0xf4 && SBox(0xd2) == 0xb5
  {
  }

  lemma Boxes9b()
    ensures SBox(0x05) == 0x6b && SBox(0xe5) == 0xd9 && SBox(0xd0) == 0x70 && SBox(0xd7) == 0x0e
  {
  }

  lemma Boxes9c()
    ensures SBox(0x35) == 0x96 && SBox(0x47) == 0xa0 && SBox(0x96) == 0x90 && SBox(0x4e) == 0x2f
  {
  }

  lemma Boxes9d()
    ensures SBox(0xf1) == 0xa1 && SBox(0xfe) == 0xbb && SBox(0x37) == 0x9a && SBox(0xf1) == 0xa1
  {
  }

  lemma Substituted9()
    ensures SubBytes(START_9)
         == [0x54, 0x11, 0xf4, 0xb5, 0x6b, 0xd9, 0x70, 0x0e,
             0x96, 0xa0, 0x90, 0x2f, 0xa1, 0xbb, 0x9a, 0xa1]
  {
    hide SBox, SubBytes;
    SubSpelled(START_9);
    Boxes9a(); Boxes9b(); Boxes9c(); Boxes9d();
  }

  lemma Columns9()
    ensures MixColumn([0x54, 0xd9, 0x90, 0xa1]) == [0xe9, 0xf7, 0x4e, 0xec]
    ensures MixColumn([0x6b, 0xa0, 0x9a, 0xb5]) == [0x02, 0x30, 0x20, 0xf6]
    ensures MixColumn([0x96, 0xbb, 0xf4, 0x0e]) == [0x1b, 0xf2, 0xcc, 0xf2]
    ensures MixColumn([0xa1, 0x11, 0x70, 0x2f]) == [0x35, 0x3c, 0x21, 0xc7]
  {
  }

  lemma Round9()
    ensures Xor(MixColumns(ShiftRows(SubBytes(START_9))), KEY_9) == START_10
  {
    hide SBox, SubBytes, MixColumn, MixColumns, Xor;
    Substituted9();
    var h: Block := [0x54, 0xd9, 0x90, 0xa1, 0x6b, 0xa0, 0x9a, 0xb5,
                     0x96, 0xbb, 0xf4, 0x0e, 0xa1, 0x11, 0x70, 0x2f];
    assert ShiftRows(SubBytes(START_9)) == h;
    Columns9();
    MixSpelled(h);
    var m: Block := [0xe9, 0xf7, 0x4e, 0xec, 0x02, 0x30, 0x20, 0xf6,
                     0x1b, 0xf2, 0xcc, 0xf2, 0x35, 0x3c, 0x21, 0xc7];
    assert MixColumns(h) == m;
    XorSpelled(m, KEY_9);
  }

  lemma Boxes10a()
    ensures SBox(0xbd) == 0x7a && SBox(0x6e) == 0x9f && SBox(0x7c) == 0x10 && SBox(0x3d) == 0x27
  {
  }

  lemma Boxes10b()
    ensures SBox(0xf2) == 0x89 && SBox(0xb5) == 0xd5 && SBox(0x77) == 0xf5 && SBox(0x9e) == 0x0b
  {
  }

  lemma Boxes10c()
    ensures SBox(0x0b) == 0x2b && SBox(0x61) == 0xef && SBox(0x21) == 0xfd && SBox(0x6e) == 0x9f
  {
  }

  lemma Boxes10d()
    ensures SBox(0x8b) == 0x3d && SBox(0x10) == 0xca && SBox(0xb6) == 0x4e && SBox(0x89) == 0xa7
  {
  }

  lemma Substituted10()
    ensures SubBytes(START_10)
         == [0x7a, 0x9f, 0x10, 0x27, 0x89, 0xd5, 0xf5, 0x0b,
             0x2b, 0xef, 0xfd, 0x9f, 0x3d, 0xca, 0x4e, 0xa7]
  {
    hide SBox, SubBytes;
    SubSpelled(START_10);
    Boxes10a(); Boxes10b(); Boxes10c(); Boxes10d();
  }

  lemma Round10()
    ensures Xor(ShiftRows(SubBytes(START_10)), KEY_10) == OUTPUT
  {
    hide SBox, SubBytes, MixColumn, MixColumns, Xor;
    Substituted10();
    var h: Block := [0x7a, 0xd5, 0xfd, 0xa7, 0x89, 0xef, 0x4e, 0x27,
                     0x2b, 0xca, 0x10, 0x0b, 0x3d, 0x9f, 0xf5, 0x9f];
    assert ShiftRows(SubBytes(START_10)) == h;
    XorSpelled(h, KEY_10);
  }

  lemma FirstRound()
    ensures Xor(PLAIN, KEY_0) == START_1
  {
    hide Xor;
    XorSpelled(PLAIN, KEY_0);
  }

  lemma NextStart(r: nat)
    requires 1 <= r <= 9
    ensures Xor(MixColumns(ShiftRows(SubBytes(Start(r)))), RoundKey(r)) == Start(r + 1)
  {
    hide SubBytes, ShiftRows, MixColumns, Xor;
    match r
    case 1 => Round1(); case 2 => Round2(); case 3 => Round3(); case 4 => Round4(); case 5 => Round5();
    case 6 => Round6(); case 7 => Round7(); case 8 => Round8(); case _ => Round9();
  }

  // ---------- the expanded key ----------

  /** The round keys one after the other. */
  function Expanded(): RoundKeys {
    seq(176, k requires 0 <= k < 176 => RoundKey(k / 16)[k % 16])
  }

  /** Word j of round key r. */
  function KeyWord(r: nat, j: nat): Word
    requires r <= 10 && j < 4
  {
    RoundKey(r)[4 * j..4 * j + 4]
  }

  lemma WordOfExpanded(r: nat, j: nat)
    requires r <= 10 && j < 4
    ensures WordAt(Expanded(), 4 * r + j) == KeyWord(r, j)
  {
    hide RoundKey;
    forall k | 0 <= k < 4 ensures WordAt(Expanded(), 4 * r + j)[k] == KeyWord(r, j)[k] {
      assert (4 * (4 * r + j) + k) / 16 == r && (4 * (4 * r + j) + k) % 16 == 4 * j + k;
    }
  }

  lemma KeyOfExpanded(r: nat)
    requires r <= 10
    ensures Key(Expanded(), r) == RoundKey(r)
  {
    hide RoundKey;
  }

  /** The first word of round key r, by the words of the round before. */
  lemma FirstWord(r: nat, s: Word)
    requires 1 <= r <= 10 && s == SubWord(RotWord(KeyWord(r - 1, 3)))
    requires XorWord(KeyWord(r - 1, 0), XorWord(s, [Rcon(r), 0, 0, 0])) == KeyWord(r, 0)
    ensures FollowsRule(Expanded(), 4 * r)
  {
    hide RoundKey, SubWord, RotWord, XorWord, WordAt, KeyWord, Rcon;
    WordOfExpanded(r, 0); WordOfExpanded(r - 1, 0); WordOfExpanded(r - 1, 3);
    assert 4 * r - 4 == 4 * (r - 1) + 0 && 4 * r - 1 == 4 * (r - 1) + 3;
  }

  lemma LaterWord(r: nat, j: nat)
    requires 1 <= r <= 10 && 1 <= j < 4 && XorWord(KeyWord(r - 1, j), KeyWord(r, j - 1)) == KeyWord(r, j)
    ensures FollowsRule(Expanded(), 4 * r + j)
  {
    hide RoundKey, SubWord, RotWord, XorWord, WordAt, KeyWord, Rcon;
    WordOfExpanded(r, j); WordOfExpanded(r - 1, j); WordOfExpanded(r, j - 1);
    assert 4 * r + j - 4 == 4 * (r - 1) + j && 4 * r + j - 1 == 4 * r + (j - 1);
  }

  lemma WordsSpelled(r: nat)
    requires r <= 10
    ensures var k := RoundKey(r);
            && KeyWord(r, 0) == [k[0], k[1], k[2], k[3]] && KeyWord(r, 1) == [k[4], k[5], k[6], k[7]]
            && KeyWord(r, 2) == [k[8], k[9], k[10], k[11]] && KeyWord(r, 3) == [k[12], k[13], k[14], k[15]]
  {
    hide RoundKey;
  }

  lemma Substitution1()
    ensures SubWord(RotWord([0x0c, 0x0d, 0x0e, 0x0f])) == [0xd7, 0xab, 0x76, 0xfe]
  {
  }

  lemma Sums1()
    ensures XorWord([0xd7, 0xab, 0x76, 0xfe], [Rcon(1), 0, 0, 0]) == [0xd6, 0xab, 0x76, 0xfe]
    ensures XorWord([0x00, 0x01, 0x02, 0x03], [0xd6, 0xab, 0x76, 0xfe]) == [0xd6, 0xaa, 0x74, 0xfd]
    ensures XorWord([0x04, 0x05, 0x06, 0x07], [0xd6, 0xaa, 0x74, 0xfd]) == [0xd2, 0xaf, 0x72, 0xfa]
    ensures XorWord([0x08, 0x09, 0x0a, 0x0b], [0xd2, 0xaf, 0x72, 0xfa]) == [0xda, 0xa6, 0x78, 0xf1]
    ensures XorWord([0x0c, 0x0d, 0x0e, 0x0f], [0xda, 0xa6, 0x78, 0xf1]) == [0xd6, 0xab, 0x76, 0xfe]
  {
  }

  lemma Expand1(j: nat)
    requires j < 4
    ensures FollowsRule(Expanded(), 4 + j)
  {
    hide SubWord, RotWord, XorWord, Rcon, KeyWord, Expanded, FollowsRule;
    WordsSpelled(0); WordsSpelled(1); Substitution1(); Sums1();
    if j == 0 { FirstWord(1, [0xd7, 0xab, 0x76, 0xfe]); } else { LaterWord(1, j); }
  }

  lemma Substitution2()
    ensures SubWord(RotWord([0xd6, 0xab, 0x76, 0xfe])) == [0x62, 0x38, 0xbb, 0xf6]
  {
  }

  lemma Sums2()
    ensures XorWord([0x62, 0x38, 0xbb, 0xf6], [Rcon(2), 0, 0, 0]) == [0x60, 0x38, 0xbb, 0xf6]
    ensures XorWord([0xd6, 0xaa, 0x74, 0xfd], [0x60, 0x38, 0xbb, 0xf6]) == [0xb6, 0x92, 0xcf, 0x0b]
    ensures XorWord([0xd2, 0xaf, 0x72, 0xfa], [0xb6, 0x92, 0xcf, 0x0b]) == [0x64, 0x3d, 0xbd, 0xf1]
    ensures XorWord([0xda, 0xa6, 0x78, 0xf1], [0x64, 0x3d, 0xbd, 0xf1]) == [0xbe, 0x9b, 0xc5, 0x00]
    ensures XorWord([0xd6, 0xab, 0x76, 0xfe], [0xbe, 0x9b, 0xc5, 0x00]) == [0x68, 0x30, 0xb3, 0xfe]
  {
  }

  lemma Expand2(j: nat)
    requires j < 4
    ensures FollowsRule(Expanded(), 8 + j)
  {
    hide SubWord, RotWord, XorWord, Rcon, KeyWord, Expanded, FollowsRule;
    WordsSpelled(1); WordsSpelled(2); Substitution2(); Sums2();
    if j == 0 { FirstWord(2, [0x62, 0x38, 0xbb, 0xf6]); } else { LaterWord(2, j); }
  }

  lemma Substitution3()
    ensures SubWord(RotWord([0x68, 0x30, 0xb3, 0xfe])) == [0x04, 0x6d, 0xbb, 0x45]
  {
  }

  lemma Sums3()
    ensures XorWord([0x04, 0x6d, 0xbb, 0x45], [Rcon(3), 0, 0, 0]) == [0x00, 0x6d, 0xbb, 0x45]
    ensures XorWord([0xb6, 0x92, 0xcf, 0x0b], [0x00, 0x6d, 0xbb, 0x45]) == [0xb6, 0xff, 0x74, 0x4e]
    ensures XorWord([0x64, 0x3d, 0xbd, 0xf1], [0xb6, 0xff, 0x74, 0x4e]) == [0xd2, 0xc2, 0xc9, 0xbf]
    ensures XorWord([0xbe, 0x9b, 0xc5, 0x00], [0xd2, 0xc2, 0xc9, 0xbf]) == [0x6c, 0x59, 0x0c, 0xbf]
    ensures XorWord([0x68, 0x30, 0xb3, 0xfe], [0x6c, 0x59, 0x0c, 0xbf]) == [0x04, 0x69, 0xbf, 0x41]
  {
  }

  lemma Expand3(j: nat)
    requires j < 4
    ensures FollowsRule(Expanded(), 12 + j)
  {
    hide SubWord, RotWord, XorWord, Rcon, KeyWord, Expanded, FollowsRule;
    WordsSpelled(2); WordsSpelled(3); Substitution3(); Sums3();
    if j == 0 { FirstWord(3, [0x04, 0x6d, 0xbb, 0x45]); } else { LaterWord(3, j); }
  }

  lemma Substitution4()
    ensures SubWord(RotWord([0x04, 0x69, 0xbf, 0x41])) == [0xf9, 0x08, 0x83, 0xf2]
  {
  }

  lemma Sums4()
    ensures XorWord([0xf9, 0x08, 0x83, 0xf2], [Rcon(4), 0, 0, 0]) == [0xf1, 0x08, 0x83, 0xf2]
    ensures XorWord([0xb6, 0xff, 0x74, 0x4e], [0xf1, 0x08, 0x83, 0xf2]) == [0x47, 0xf7, 0xf7, 0xbc]
    ensures XorWord([0xd2, 0xc2, 0xc9, 0xbf], [0x47, 0xf7, 0xf7, 0xbc]) == [0x95, 0x35, 0x3e, 0x03]
    ensures XorWord([0x6c, 0x59, 0x0c, 0xbf], [0x95, 0x35, 0x3e, 0x03]) == [0xf9, 0x6c, 0x32, 0xbc]
    ensures XorWord([0x04, 0x69, 0xbf, 0x41], [0xf9, 0x6c, 0x32, 0xbc]) == [0xfd, 0x05, 0x8d, 0xfd]
  {
  }

  lemma Expand4(j: nat)
    requires j < 4
    ensures FollowsRule(Expanded(), 16 + j)
  {
    hide SubWord, RotWord, XorWord, Rcon, KeyWord, Expanded, FollowsRule;
    WordsSpelled(3); WordsSpelled(4); Substitution4(); Sums4();
    if j == 0 { FirstWord(4, [0xf9, 0x08, 0x83, 0xf2]); } else { LaterWord(4, j); }
  }

  lemma Substitution5()
    ensures SubWord(RotWord([0xfd, 0x05, 0x8d, 0xfd])) == [0x6b, 0x5d, 0x54, 0x54]
  {
  }

  lemma Sums5()
    ensures XorWord([0x6b, 0x5d, 0x54, 0x54], [Rcon(5), 0, 0, 0]) == [0x7b, 0x5d, 0x54, 0x54]
    ensures XorWord([0x47, 0xf7, 0xf7, 0xbc], [0x7b, 0x5d, 0x54, 0x54]) == [0x3c, 0xaa, 0xa3, 0xe8]
    ensures XorWord([0x95, 0x35, 0x3e, 0x03], [0x3c, 0xaa, 0xa3, 0xe8]) == [0xa9, 0x9f, 0x9d, 0xeb]
    ensures XorWord([0xf9, 0x6c, 0x32, 0xbc], [0xa9, 0x9f, 0x9d, 0xeb]) == [0x50, 0xf3, 0xaf, 0x57]
    ensures XorWord([0xfd, 0x05, 0x8d, 0xfd], [0x50, 0xf3, 0xaf, 0x57]) == [0xad, 0xf6, 0x22, 0xaa]
  {
  }

  lemma Expand5(j: nat)
    requires j < 4
    ensures FollowsRule(Expanded(), 20 + j)
  {
    hide SubWord, RotWord, XorWord, Rcon, KeyWord, Expanded, FollowsRule;
    WordsSpelled(4); WordsSpelled(5); Substitution5(); Sums5();
    if j == 0 { FirstWord(5, [0x6b, 0x5d, 0x54, 0x54]); } else { LaterWord(5, j); }
  }

  lemma Substitution6()
    ensures SubWord(RotWord([0xad, 0xf6, 0x22, 0xaa])) == [0x42, 0x93, 0xac, 0x95]
  {
  }

  lemma Sums6()
    ensures XorWord([0x42, 0x93, 0xac, 0x95], [Rcon(6), 0, 0, 0]) == [0x62, 0x93, 0xac, 0x95]
    ensures XorWord([0x3c, 0xaa, 0xa3, 0xe8], [0x62, 0x93, 0xac, 0x95]) == [0x5e, 0x39, 0x0f, 0x7d]
    ensures XorWord([0xa9, 0x9f, 0x9d, 0xeb], [0x5e, 0x39, 0x0f, 0x7d]) == [0xf7, 0xa6, 0x92, 0x96]
    ensures XorWord([0x50, 0xf3, 0xaf, 0x57], [0xf7, 0xa6, 0x92, 0x96]) == [0xa7, 0x55, 0x3d, 0xc1]
    ensures XorWord([0xad, 0xf6, 0x22, 0xaa], [0xa7, 0x55, 0x3d, 0xc1]) == [0x0a, 0xa3, 0x1f, 0x6b]
  {
  }

  lemma Expand6(j: nat)
    requires j < 4
    ensures FollowsRule(Expanded(), 24 + j)
  {
    hide SubWord, RotWord, XorWord, Rcon, KeyWord, Expanded, FollowsRule;
    WordsSpelled(5); WordsSpelled(6); Substitution6(); Sums6();
    if j == 0 { FirstWord(6, [0x42, 0x93, 0xac, 0x95]); } else { LaterWord(6, j); }
  }

  lemma Substitution7()
    ensures SubWord(RotWord([0x0a, 0xa3, 0x1f, 0x6b])) == [0x0a, 0xc0, 0x7f, 0x67]
  {
  }

  lemma Sums7()
    ensures XorWord([0x0a, 0xc0, 0x7f, 0x67], [Rcon(7), 0, 0, 0]) == [0x4a, 0xc0, 0x7f, 0x67]
    ensures XorWord([0x5e, 0x39, 0x0f, 0x7d], [0x4a, 0xc0, 0x7f, 0x67]) == [0x14, 0xf9, 0x70, 0x1a]
    ensures XorWord([0xf7, 0xa6, 0x92, 0x96], [0x14, 0xf9, 0x70, 0x1a]) == [0xe3, 0x5f, 0xe2, 0x8c]
    ensures XorWord([0xa7, 0x55, 0x3d, 0xc1], [0xe3, 0x5f, 0xe2, 0x8c]) == [0x44, 0x0a, 0xdf, 0x4d]
    ensures XorWord([0x0a, 0xa3, 0x1f, 0x6b], [0x44, 0x0a, 0xdf, 0x4d]) == [0x4e, 0xa9, 0xc0, 0x26]
  {
  }

  lemma Expand7(j: nat)
    requires j < 4
    ensures FollowsRule(Expanded(), 28 + j)
  {
    hide SubWord, RotWord, XorWord, Rcon, KeyWord, Expanded, FollowsRule;
    WordsSpelled(6); WordsSpelled(7); Substitution7(); Sums7();
    if j == 0 { FirstWord(7, [0x0a, 0xc0, 0x7f, 0x67]); } else { LaterWord(7, j); }
  }

  lemma Substitution8()
    ensures SubWord(RotWord([0x4e, 0xa9, 0xc0, 0x26])) == [0xd3, 0xba, 0xf7, 0x2f]
  {
  }

  lemma Sums8()
    ensures XorWord([0xd3, 0xba, 0xf7, 0x2f], [Rcon(8), 0, 0, 0]) == [0x53, 0xba, 0xf7, 0x2f]
    ensures XorWord([0x14, 0xf9, 0x70, 0x1a], [0x53, 0xba, 0xf7, 0x2f]) == [0x47, 0x43, 0x87, 0x35]
    ensures XorWord([0xe3, 0x5f, 0xe2, 0x8c], [0x47, 0x43, 0x87, 0x35]) == [0xa4, 0x1c, 0x65, 0xb9]
    ensures XorWord([0x44, 0x0a, 0xdf, 0x4d], [0xa4, 0x1c, 0x65, 0xb9]) == [0xe0, 0x16, 0xba, 0xf4]
    ensures XorWord([0x4e, 0xa9, 0xc0, 0x26], [0xe0, 0x16, 0xba, 0xf4]) == [0xae, 0xbf, 0x7a, 0xd2]
  {
  }

  lemma Expand8(j: nat)
    requires j < 4
    ensures FollowsRule(Expanded(), 32 + j)
  {
    hide SubWord, RotWord, XorWord, Rcon, KeyWord, Expanded, FollowsRule;
    WordsSpelled(7); WordsSpelled(8); Substitution8(); Sums8();
    if j == 0 { FirstWord(8, [0xd3, 0xba, 0xf7, 0x2f]); } else { LaterWord(8, j); }
  }

  lemma Substitution9()
    ensures SubWord(RotWord([0xae, 0xbf, 0x7a, 0xd2])) == [0x08, 0xda, 0xb5, 0xe4]
  {
  }

  lemma Sums9()
    ensures XorWord([0x08, 0xda, 0xb5, 0xe4], [Rcon(9), 0, 0, 0]) == [0x13, 0xda, 0xb5, 0xe4]
    ensures XorWord([0x47, 0x43, 0x87, 0x35], [0x13, 0xda, 0xb5, 0xe4]) == [0x54, 0x99, 0x32, 0xd1]
    ensures XorWord([0xa4, 0x1c, 0x65, 0xb9], [0x54, 0x99, 0x32, 0xd1]) == [0xf0, 0x85, 0x57, 0x68]
    ensures XorWord([0xe0, 0x16, 0xba, 0xf4], [0xf0, 0x85, 0x57, 0x68]) == [0x10, 0x93, 0xed, 0x9c]
    ensures XorWord([0xae, 0xbf, 0x7a, 0xd2], [0x10, 0x93, 0xed, 0x9c]) == [0xbe, 0x2c, 0x97, 0x4e]
  {
  }

  lemma Expand9(j: nat)
    requires j < 4
    ensures FollowsRule(Expanded(), 36 + j)
  {
    hide SubWord, RotWord, XorWord, Rcon, KeyWord, Expanded, FollowsRule;
    WordsSpelled(8); WordsSpelled(9); Substitution9(); Sums9();
    if j == 0 { FirstWord(9, [0x08, 0xda, 0xb5, 0xe4]); } else { LaterWord(9, j); }
  }

  lemma Substitution10()
    ensures SubWord(RotWord([0xbe, 0x2c, 0x97, 0x4e])) == [0x71, 0x88, 0x2f, 0xae]
  {
  }

  lemma Sums10()
    ensures XorWord([0x71, 0x88, 0x2f, 0xae], [Rcon(10), 0, 0, 0]) == [0x47, 0x88, 0x2f, 0xae]
    ensures XorWord([0x54, 0x99, 0x32, 0xd1], [0x47, 0x88, 0x2f, 0xae]) == [0x13, 0x11, 0x1d, 0x7f]
    ensures XorWord([0xf0, 0x85, 0x57, 0x68], [0x13, 0x11, 0x1d, 0x7f]) == [0xe3, 0x94, 0x4a, 0x17]
    ensures XorWord([0x10, 0x93, 0xed, 0x9c], [0xe3, 0x94, 0x4a, 0x17]) == [0xf3, 0x07, 0xa7, 0x8b]
    ensures XorWord([0xbe, 0x2c, 0x97, 0x4e], [0xf3, 0x07, 0xa7, 0x8b]) == [0x4d, 0x2b, 0x30, 0xc5]
  {
  }

  lemma Expand10(j: nat)
    requires j < 4
    ensures FollowsRule(Expanded(), 40 + j)
  {
    hide SubWord, RotWord, XorWord, Rcon, KeyWord, Expanded, FollowsRule;
    WordsSpelled(9); WordsSpelled(10); Substitution10(); Sums10();
    if j == 0 { FirstWord(10, [0x71, 0x88, 0x2f, 0xae]); } else { LaterWord(10, j); }
  }

  lemma WordFollows(i: nat)
    requires 4 <= i < 44
    ensures FollowsRule(Expanded(), i)
  {
    hide FollowsRule, Expanded;
    var j := i % 4;
    match i / 4
    case 1 => Expand1(j); case 2 => Expand2(j); case 3 => Expand3(j); case 4 => Expand4(j); case 5 => Expand5(j);
    case 6 => Expand6(j); case 7 => Expand7(j); case 8 => Expand8(j); case 9 => Expand9(j); case _ => Expand10(j);
  }

  /** The schedule of the example key. */
  lemma ScheduleKnown()
    ensures Schedule(KEY_0) == Expanded()
  {
    hide FollowsRule, Schedule, Expanded;
    forall i: nat | 4 <= i < 44 ensures FollowsRule(Expanded(), i) { WordFollows(i); }
    KeyOfExpanded(0);
    ScheduleIsTheSchedule(Expanded(), KEY_0);
  }

  // ---------- the answer ----------

  lemma {:induction false} RoundsKnown(r: nat)
    requires r <= 9
    ensures Rounds(PLAIN, Expanded(), r) == Start(r + 1)
  {
    hide SubBytes, ShiftRows, MixColumns, Xor, Expanded, Key;
    KeyOfExpanded(r);
    if r == 0 {
      FirstRound();
    } else {
      RoundsKnown(r - 1);
      NextStart(r);
    }
  }

  /** The example key takes the example block to the output that the standard prints, and back. */
  lemma KnownAnswer()
    ensures Cipher(PLAIN, Schedule(KEY_0)) == OUTPUT && InvCipher(OUTPUT, Schedule(KEY_0)) == PLAIN
  {
    hide SubBytes, ShiftRows, MixColumns, Xor, Expanded, Key, Schedule, Rounds, InvCipher;
    ScheduleKnown();
    RoundsKnown(9);
    Round10();
    KeyOfExpanded(10);
    CipherInverse(PLAIN, Schedule(KEY_0));
  }
}
