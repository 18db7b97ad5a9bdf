/** The AES engine as the source runs it: one buffer of round keys and a state that is overlaid on the output buffer.
    The source keeps one such set of statics for encryption and one for decryption; each is an Engine here. */
module Aes {
  import opened AesTables
  import opened AesSpec

  /** b after SubBytes has passed rows 0 to i - 1 and the first j columns of row i. */
  function Substituted(b: Block, i: nat, j: nat): Block {
    seq(16, k requires 0 <= k < 16 => if k % 4 < i || (k % 4 == i && k / 4 < j) then SBox(b[k]) else b[k])
  }

  function InvSubstituted(b: Block, i: nat, j: nat): Block {
    seq(16, k requires 0 <= k < 16 => if k % 4 < i || (k % 4 == i && k / 4 < j) then RSBox(b[k]) else b[k])
  }

  /** b after the key of the round has been added to its first n bytes. */
  function Added(b: Block, key: Block, n: nat): Block {
    seq(16, k requires 0 <= k < 16 => if k < n then b[k] ^ key[k] else b[k])
  }

  /** The first i columns of n, then those of b. */
  function Upto(n: Block, b: Block, i: nat): Block
    requires i <= 4
  {
    n[..4 * i] + b[4 * i..]
  }

  function PutColumn(b: Block, i: nat, c: Column): Block
    requires i < 4
  {
    b[..4 * i] + c + b[4 * i + 4..]
  }

  /** Column i. */
  function Four(b: Block, i: nat): Column
    requires i < 4
  {
    b[4 * i..4 * i + 4]
  }

  class Engine {
    const roundKey: array<bv8>
    var state: array<bv8>
    var at: nat

    ghost predicate Valid()
      reads this
    {
      roundKey.Length == 176 && at + 16 <= state.Length && state != roundKey
    }

    /** The state array as one block. */
    ghost function Current(): Block
      requires Valid()
      reads this, state
    {
      state[at..at + 16]
    }

    /** What lies around the block in the buffer it is overlaid on. */
    ghost function Around(): (seq<bv8>, seq<bv8>)
      requires Valid()
      reads this, state
    {
      (state[..at], state[at + 16..])
    }

    /** (*state)[i][j]. */
    function At(i: nat, j: nat): (v: bv8)
      requires Valid() && i < 4 && j < 4
      reads this, state
      ensures v == Current()[4 * i + j]
    {
      state[at + 4 * i + j]
    }

    ghost function Keys(): RoundKeys
      requires Valid()
      reads this, roundKey
    {
      roundKey[..]
    }

    constructor (buffer: array<bv8>)
      requires buffer.Length >= 16
      ensures Valid() && state == buffer && at == 0 && fresh(roundKey)
    {
      roundKey := new bv8[176];
      state := buffer;
      at := 0;
    }

    /** (*state)[i][j] = v. */
    method Put(i: nat, j: nat, v: bv8)
      requires Valid() && i < 4 && j < 4
      modifies state
      ensures Current() == old(Current())[4 * i + j := v] && Around() == old(Around())
    {
      state[at + 4 * i + j] := v;
    }

    method KeyExpansion(key: array<bv8>)
      requires Valid() && key.Length >= 16 && key != roundKey
      modifies roundKey
      ensures Keys() == Schedule(key[..16])
    {
      hide XorWord, SubWord, SBox;
      var i := 0;
      while i < 4
        invariant 0 <= i <= 4 && roundKey[..4 * i] == key[..4 * i]
      {
        roundKey[4 * i] := key[4 * i];
        roundKey[4 * i + 1] := key[4 * i + 1];
        roundKey[4 * i + 2] := key[4 * i + 2];
        roundKey[4 * i + 3] := key[4 * i + 3];
        i := i + 1;
      }
      while i < 44
        invariant 4 <= i <= 44 && roundKey[..4 * i] == Expand(key[..16], i)
      {
        NextWord(i, key[..16]);
        i := i + 1;
      }
      assert roundKey[..] == roundKey[..176];
    }

    /** One turn of the expansion loop; tempa is kept as four variables. */
    method NextWord(i: nat, ghost key: Block)
      requires Valid() && 4 <= i < 44 && roundKey[..4 * i] == Expand(key, i)
      modifies roundKey
      ensures roundKey[..4 * i + 4] == Expand(key, i + 1)
    {
      hide SBox, WordAt, XorWord, Temp;
      var t0, t1, t2, t3 := LoadWord(i - 1);
      assert [t0, t1, t2, t3] == WordAt(Expand(key, i), i - 1);
      t0, t1, t2, t3 := Transform(t0, t1, t2, t3, i);
      StoreWord(i, t0, t1, t2, t3);
    }

    method LoadWord(i: nat) returns (t0: bv8, t1: bv8, t2: bv8, t3: bv8)
      requires Valid() && i < 44
      ensures [t0, t1, t2, t3] == WordAt(roundKey[..4 * i + 4], i)
    {
      t0, t1, t2, t3 := roundKey[4 * i], roundKey[4 * i + 1], roundKey[4 * i + 2], roundKey[4 * i + 3];
    }

    /** RotWord, SubWord and the round constant, on every fourth word only. */
    static method Transform(a0: bv8, a1: bv8, a2: bv8, a3: bv8, i: nat) returns (t0: bv8, t1: bv8, t2: bv8, t3: bv8)
      requires 4 <= i < 44
      ensures [t0, t1, t2, t3] == Temp([a0, a1, a2, a3], i)
    {
      hide SBox;
      t0, t1, t2, t3 := a0, a1, a2, a3;
      if i % 4 == 0 {
        t0, t1, t2, t3 := t1, t2, t3, t0;
        t0, t1, t2, t3 := SBox(t0), SBox(t1), SBox(t2), SBox(t3);
        t0 := t0 ^ Rcon(i / 4);
        RconOnly(t0, t1, t2, t3, SBox(a1), Rcon(i / 4));
      }
    }

    method StoreWord(i: nat, t0: bv8, t1: bv8, t2: bv8, t3: bv8)
      requires Valid() && 4 <= i < 44
      modifies roundKey
      ensures roundKey[..4 * i + 4] == old(roundKey[..4 * i])
              + XorWord(WordAt(old(roundKey[..4 * i]), i - 4), [t0, t1, t2, t3])
    {
      var a0, a1, a2, a3 := LoadWord(i - 4);
      assert WordAt(roundKey[..4 * i], i - 4) == [a0, a1, a2, a3];
      XorWordIs(a0, a1, a2, a3, t0, t1, t2, t3);
      hide XorWord;
      PutWord(i, a0 ^ t0, a1 ^ t1, a2 ^ t2, a3 ^ t3);
    }

    method PutWord(i: nat, x0: bv8, x1: bv8, x2: bv8, x3: bv8)
      requires Valid() && i < 44
      modifies roundKey
      ensures roundKey[..4 * i + 4] == old(roundKey[..4 * i]) + [x0, x1, x2, x3]
    {
      roundKey[4 * i] := x0;
      roundKey[4 * i + 1] := x1;
      roundKey[4 * i + 2] := x2;
      roundKey[4 * i + 3] := x3;
    }

    method AddRoundKey(round: nat)
      requires Valid() && round <= 10
      modifies state
      ensures Current() == Xor(old(Current()), Key(Keys(), round)) && Around() == old(Around())
    {
      ghost var (b, key) := (Current(), Key(Keys(), round));
      var i := 0;
      while i < 4
        invariant 0 <= i <= 4 && Current() == Added(b, key, 4 * i)
        invariant Around() == old(Around()) && roundKey[..] == old(roundKey[..])
      {
        var j := 0;
        while j < 4
          invariant 0 <= j <= 4 && Current() == Added(b, key, 4 * i + j)
          invariant Around() == old(Around()) && roundKey[..] == old(roundKey[..])
        {
          assert roundKey[16 * round + 4 * i + j] == key[4 * i + j];
          Put(i, j, At(i, j) ^ roundKey[16 * round + 4 * i + j]);
          j := j + 1;
        }
        i := i + 1;
      }
    }

    method SubBytes()
      requires Valid()
      modifies state
      ensures Current() == AesSpec.SubBytes(old(Current())) && Around() == old(Around())
    {
      hide SBox;
      ghost var b := Current();
      var i := 0;
      while i < 4
        invariant 0 <= i <= 4 && Current() == Substituted(b, i, 0) && Around() == old(Around())
      {
        var j := 0;
        while j < 4
          invariant 0 <= j <= 4 && Current() == Substituted(b, i, j) && Around() == old(Around())
        {
          Put(j, i, SBox(At(j, i)));
          j := j + 1;
        }
        i := i + 1;
      }
    }

    method InvSubBytes()
      requires Valid()
      modifies state
      ensures Current() == AesSpec.InvSubBytes(old(Current())) && Around() == old(Around())
    {
      hide RSBox;
      ghost var b := Current();
      var i := 0;
      while i < 4
        invariant 0 <= i <= 4 && Current() == InvSubstituted(b, i, 0) && Around() == old(Around())
      {
        var j := 0;
        while j < 4
          invariant 0 <= j <= 4 && Current() == InvSubstituted(b, i, j) && Around() == old(Around())
        {
          Put(j, i, RSBox(At(j, i)));
          j := j + 1;
        }
        i := i + 1;
      }
    }

    /** The first rotated row, one column to the left. */
    method ShiftRow1()
      requires Valid()
      modifies state
      ensures var b := old(Current()); Current() == b[1 := b[5]][5 := b[9]][9 := b[13]][13 := b[1]]
      ensures Around() == old(Around())
    {
      hide Current, Around, At;
      var temp := At(0, 1);
      Put(0, 1, At(1, 1));
      Put(1, 1, At(2, 1));
      Put(2, 1, At(3, 1));
      Put(3, 1, temp);
    }

    /** The second, two columns to either side. */
    method ShiftRow2()
      requires Valid()
      modifies state
      ensures var b := old(Current()); Current() == b[2 := b[10]][10 := b[2]][6 := b[14]][14 := b[6]]
      ensures Around() == old(Around())
    {
      hide Current, Around, At;
      var temp := At(0, 2);
      Put(0, 2, At(2, 2));
      Put(2, 2, temp);
      temp := At(1, 2);
      Put(1, 2, At(3, 2));
      Put(3, 2, temp);
    }

    /** The third, three columns to the left. */
    method ShiftRow3()
      requires Valid()
      modifies state
      ensures var b := old(Current()); Current() == b[3 := b[15]][15 := b[11]][11 := b[7]][7 := b[3]]
      ensures Around() == old(Around())
    {
      hide Current, Around, At;
      var temp := At(0, 3);
      Put(0, 3, At(3, 3));
      Put(3, 3, At(2, 3));
      Put(2, 3, At(1, 3));
      Put(1, 3, temp);
    }

    method ShiftRows()
      requires Valid()
      modifies state
      ensures Current() == AesSpec.ShiftRows(old(Current())) && Around() == old(Around())
    {
      hide Current, Around, AesSpec.ShiftRows;
      ghost var b := Current();
      ShiftRow1();
      ShiftRow2();
      ShiftRow3();
      ShiftPuts(b);
    }

    method InvShiftRow1()
      requires Valid()
      modifies state
      ensures var b := old(Current()); Current() == b[13 := b[9]][9 := b[5]][5 := b[1]][1 := b[13]]
      ensures Around() == old(Around())
    {
      hide Current, Around, At;
      var temp := At(3, 1);
      Put(3, 1, At(2, 1));
      Put(2, 1, At(1, 1));
      Put(1, 1, At(0, 1));
      Put(0, 1, temp);
    }

    method InvShiftRow3()
      requires Valid()
      modifies state
      ensures var b := old(Current()); Current() == b[3 := b[7]][7 := b[11]][11 := b[15]][15 := b[3]]
      ensures Around() == old(Around())
    {
      hide Current, Around, At;
      var temp := At(0, 3);
      Put(0, 3, At(1, 3));
      Put(1, 3, At(2, 3));
      Put(2, 3, At(3, 3));
      Put(3, 3, temp);
    }

    method InvShiftRows()
      requires Valid()
      modifies state
      ensures Current() == AesSpec.InvShiftRows(old(Current())) && Around() == old(Around())
    {
      hide Current, Around, AesSpec.InvShiftRows;
      ghost var b := Current();
      InvShiftRow1();
      ShiftRow2();
      InvShiftRow3();
      InvShiftPuts(b);
    }

    method MixColumns()
      requires Valid()
      modifies state
      ensures Current() == AesSpec.MixColumns(old(Current())) && Around() == old(Around())
    {
      hide MixColumn, AesSpec.MixColumns, PutColumn;
      ghost var b := Current();
      var i := 0;
      while i < 4
        invariant 0 <= i <= 4 && Current() == Upto(AesSpec.MixColumns(b), b, i) && Around() == old(Around())
      {
        UptoStep(AesSpec.MixColumns(b), b, i);
        MixedColumn(b, i);
        MixOne(i);
        i := i + 1;
      }
    }

    /** The body of the loop of MixColumns: bytes already replaced are not read again, save the first, kept in t. */
    method MixOne(i: nat)
      requires Valid() && i < 4
      modifies state
      ensures Current() == PutColumn(old(Current()), i, MixColumn(old(Current())[4 * i..4 * i + 4]))
              && Around() == old(Around())
    {
      hide Current, Around, At, PutColumn, Mix, Parity;
      ghost var b := Current();
      ghost var c := b[4 * i..4 * i + 4];
      var t := At(i, 0);
      var all := Parity(At(i, 0), At(i, 1), At(i, 2), At(i, 3));
      Put(i, 0, Mix(At(i, 0), At(i, 1), all));
      Put(i, 1, Mix(At(i, 1), At(i, 2), all));
      Put(i, 2, Mix(At(i, 2), At(i, 3), all));
      Put(i, 3, Mix(At(i, 3), t, all));
      FourPuts(b, i, [Mix(c[0], c[1], all), Mix(c[1], c[2], all), Mix(c[2], c[3], all), Mix(c[3], c[0], all)]);
    }

    method InvMixColumns()
      requires Valid()
      modifies state
      ensures Current() == AesSpec.InvMixColumns(old(Current())) && Around() == old(Around())
    {
      hide InvMixColumn, AesSpec.InvMixColumns, PutColumn;
      ghost var before := Current();
      var i := 0;
      while i < 4
        invariant 0 <= i <= 4 && Current() == Upto(AesSpec.InvMixColumns(before), before, i)
                  && Around() == old(Around())
      {
        UptoStep(AesSpec.InvMixColumns(before), before, i);
        UnmixedColumn(before, i);
        InvMixOne(i);
        i := i + 1;
      }
    }

    method InvMixOne(i: nat)
      requires Valid() && i < 4
      modifies state
      ensures Current() == PutColumn(old(Current()), i, InvMixColumn(old(Current())[4 * i..4 * i + 4]))
      ensures Around() == old(Around())
    {
      hide Current, Around, At, InvMixColumn, PutColumn;
      ghost var before := Current();
      var a, b, c, d := At(i, 0), At(i, 1), At(i, 2), At(i, 3);
      assert before[4 * i..4 * i + 4] == [a, b, c, d];
      var m := InvMixColumn([a, b, c, d]);
      Put(i, 0, m[0]);
      Put(i, 1, m[1]);
      Put(i, 2, m[2]);
      Put(i, 3, m[3]);
      FourPuts(before, i, m);
    }

    method Cipher()
      requires Valid()
      modifies state
      ensures Current() == AesSpec.Cipher(old(Current()), Keys()) && Around() == old(Around())
    {
      hide AesSpec.SubBytes, AesSpec.ShiftRows, AesSpec.MixColumns, Xor, Key;
      ghost var b := Current();
      AddRoundKey(0);
      var round := 1;
      while round < 10
        invariant 1 <= round <= 10 && Current() == Rounds(b, Keys(), round - 1)
        invariant Around() == old(Around()) && Keys() == old(Keys())
      {
        SubBytes();
        ShiftRows();
        MixColumns();
        AddRoundKey(round);
        round := round + 1;
      }
      SubBytes();
      ShiftRows();
      AddRoundKey(10);
    }

    method InvCipher()
      requires Valid()
      modifies state
      ensures Current() == AesSpec.InvCipher(old(Current()), Keys()) && Around() == old(Around())
    {
      hide AesSpec.InvSubBytes, AesSpec.InvShiftRows, AesSpec.InvMixColumns, Xor, Key;
      ghost var b := Current();
      AddRoundKey(10);
      var round := 9;
      while round > 0
        invariant 0 <= round <= 9 && Current() == InvRounds(b, Keys(), round + 1)
        invariant Around() == old(Around()) && Keys() == old(Keys())
      {
        InvShiftRows();
        InvSubBytes();
        AddRoundKey(round);
        InvMixColumns();
        round := round - 1;
      }
      InvShiftRows();
      InvSubBytes();
      AddRoundKey(0);
    }
  }

  lemma XorWordIs(a0: bv8, a1: bv8, a2: bv8, a3: bv8, t0: bv8, t1: bv8, t2: bv8, t3: bv8)
    ensures XorWord([a0, a1, a2, a3], [t0, t1, t2, t3]) == [a0 ^ t0, a1 ^ t1, a2 ^ t2, a3 ^ t3]
  {
  }

  lemma RconOnly(t0: bv8, t1: bv8, t2: bv8, t3: bv8, s: bv8, r: bv8)
    requires t0 == s ^ r
    ensures [t0, t1, t2, t3] == XorWord([s, t1, t2, t3], [r, 0, 0, 0])
  {
  }

  lemma ShiftPuts(b: Block)
    ensures var r1 := b[1 := b[5]][5 := b[9]][9 := b[13]][13 := b[1]];
            var r2 := r1[2 := r1[10]][10 := r1[2]][6 := r1[14]][14 := r1[6]];
            ShiftRows(b) == r2[3 := r2[15]][15 := r2[11]][11 := r2[7]][7 := r2[3]]
  {
  }

  lemma InvShiftPuts(b: Block)
    ensures var r1 := b[13 := b[9]][9 := b[5]][5 := b[1]][1 := b[13]];
            var r2 := r1[2 := r1[10]][10 := r1[2]][6 := r1[14]][14 := r1[6]];
            InvShiftRows(b) == r2[3 := r2[7]][7 := r2[11]][11 := r2[15]][15 := r2[3]]
  {
  }

  lemma FourPuts(b: Block, i: nat, c: Column)
    requires i < 4
    ensures PutColumn(b, i, c) == b[4 * i := c[0]][4 * i + 1 := c[1]][4 * i + 2 := c[2]][4 * i + 3 := c[3]]
  {
  }

  lemma UptoStep(n: Block, b: Block, i: nat)
    requires i < 4
    ensures Upto(n, b, i)[4 * i..4 * i + 4] == b[4 * i..4 * i + 4]
    ensures PutColumn(Upto(n, b, i), i, n[4 * i..4 * i + 4]) == Upto(n, b, i + 1)
  {
  }

  lemma MixedColumn(b: Block, i: nat)
    requires i < 4
    ensures Four(MixColumns(b), i) == MixColumn(Four(b, i))
  {
    hide MixColumn;
  }

  lemma UnmixedColumn(b: Block, i: nat)
    requires i < 4
    ensures Four(InvMixColumns(b), i) == InvMixColumn(Four(b, i))
  {
    hide InvMixColumn;
  }
}
