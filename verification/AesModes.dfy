/** Padding, ECB and CBC on top of the AES engine: what each of them leaves in the output buffer, also when it is the
    input buffer, and that decryption undoes encryption for every key schedule, initial vector and number of blocks. */
module AesModes {
  import opened AesSpec
  import opened Aes

  function BlockAt(s: seq<bv8>, i: nat): Block
    requires 16 * i + 16 <= |s|
  {
    s[16 * i..16 * i + 16]
  }

  /** s with the bytes from at on replaced by b. */
  function Patched(s: seq<bv8>, at: nat, b: Block): seq<bv8>
    requires at + 16 <= |s|
  {
    s[..at] + b + s[at + 16..]
  }

  lemma PatchedParts(s: seq<bv8>, at: nat, b: Block)
    requires at + 16 <= |s|
    ensures |Patched(s, at, b)| == |s|
    ensures Patched(s, at, b)[..at] == s[..at]
    ensures Patched(s, at, b)[at..at + 16] == b
    ensures Patched(s, at, b)[at + 16..] == s[at + 16..]
  {
  }

  lemma PatchedTwice(s: seq<bv8>, at: nat, b: Block, c: Block)
    requires at + 16 <= |s|
    ensures |Patched(s, at, b)| == |s| && Patched(Patched(s, at, b), at, c) == Patched(s, at, c)
  {
  }

  /** One more block of a buffer of which the blocks before i are done. */
  lemma Advance(c: seq<bv8>, o: seq<bv8>, i: nat, b: Block)
    requires |c| == 16 * i && 16 * i + 16 <= |o|
    ensures |c + o[16 * i..]| == |o| && (c + o[16 * i..])[16 * i..16 * i + 16] == BlockAt(o, i)
    ensures Patched(c + o[16 * i..], 16 * i, b) == (c + b) + o[16 * (i + 1)..]
  {
  }

  // ---------- ECB with PKCS #7 padding ----------

  function PadLength(m: seq<bv8>): nat { 16 - |m| % 16 }

  /** The padding of section 6.3 of RFC 5652 for blocks of 16 bytes. */
  function Padded(m: seq<bv8>): (p: seq<bv8>)
    ensures |p| == 16 * (|m| / 16 + 1)
  {
    m + seq(PadLength(m), _ => PadLength(m) as bv8)
  }

  function EcbEncrypted(p: seq<bv8>, w: RoundKeys, n: nat): (c: seq<bv8>)
    requires 16 * n <= |p|
    ensures |c| == 16 * n
  {
    if n == 0 then [] else EcbEncrypted(p, w, n - 1) + Cipher(BlockAt(p, n - 1), w)
  }

  function EcbDecrypted(c: seq<bv8>, w: RoundKeys, n: nat): (p: seq<bv8>)
    requires 16 * n <= |c|
    ensures |p| == 16 * n
  {
    if n == 0 then [] else EcbDecrypted(c, w, n - 1) + InvCipher(BlockAt(c, n - 1), w)
  }

  lemma {:induction false} EcbDecryptedPrefix(c: seq<bv8>, d: seq<bv8>, w: RoundKeys, n: nat)
    requires 16 * n <= |c| <= |d| && d[..|c|] == c
    ensures EcbDecrypted(c, w, n) == EcbDecrypted(d, w, n)
  {
    hide InvCipher;
    if n > 0 {
      EcbDecryptedPrefix(c, d, w, n - 1);
      assert BlockAt(c, n - 1) == BlockAt(d, n - 1);
    }
  }

  /** The padded message is the message and then as many bytes, one to sixteen, as each of them says, up to a whole
      number of blocks. */
  lemma PaddedIs(m: seq<bv8>)
    ensures var (p, k) := (Padded(m), |Padded(m)| - |m|);
            && 1 <= k <= 16 && |p| % 16 == 0 && p[..|m|] == m && forall i | |m| <= i < |p| :: p[i] == k as bv8
  {
  }

  /** Section 6.1 of SP 800-38A: each block is enciphered by itself. */
  lemma {:induction false} EcbBlock(p: seq<bv8>, w: RoundKeys, n: nat, i: nat)
    requires 16 * n <= |p| && i < n
    ensures BlockAt(EcbEncrypted(p, w, n), i) == Cipher(BlockAt(p, i), w)
  {
    hide Cipher;
    if i < n - 1 {
      EcbBlock(p, w, n - 1, i);
      assert BlockAt(EcbEncrypted(p, w, n), i) == BlockAt(EcbEncrypted(p, w, n - 1), i);
    }
  }

  /** Decryption undoes encryption block by block. */
  lemma {:induction false} EcbInverse(p: seq<bv8>, w: RoundKeys, n: nat)
    requires 16 * n <= |p|
    ensures EcbDecrypted(EcbEncrypted(p, w, n), w, n) == p[..16 * n]
  {
    hide Cipher, InvCipher;
    if n > 0 {
      var (c, d) := (EcbEncrypted(p, w, n - 1), EcbEncrypted(p, w, n));
      EcbInverse(p, w, n - 1);
      EcbDecryptedPrefix(c, d, w, n - 1);
      assert BlockAt(d, n - 1) == Cipher(BlockAt(p, n - 1), w);
      CipherInverse(BlockAt(p, n - 1), w);
      assert p[..16 * n] == p[..16 * (n - 1)] + BlockAt(p, n - 1);
    }
  }

  /** Decrypting an encrypted message yields its bytes and then the padding, whose last byte, returned by the source, is
      the number of bytes to drop. */
  lemma EcbRoundTrip(m: seq<bv8>, key: Block)
    ensures var n := |m| / 16 + 1;
            var d := EcbDecrypted(EcbEncrypted(Padded(m), Schedule(key), n), Schedule(key), n);
            && d[|d| - 1] == PadLength(m) as bv8
            && d[..|d| - PadLength(m)] == m
  {
    hide Schedule, EcbEncrypted, EcbDecrypted;
    EcbInverse(Padded(m), Schedule(key), |m| / 16 + 1);
  }

  method BlockCopy(output: array<bv8>, outAt: nat, input: array<bv8>, inAt: nat)
    requires outAt + 16 <= output.Length && inAt + 16 <= input.Length && (output == input ==> outAt == inAt)
    modifies output
    ensures output[..] == Patched(old(output[..]), outAt, old(input[inAt..inAt + 16]))
  {
    ghost var (before, b) := (output[..], input[inAt..inAt + 16]);
    var i := 0;
    while i < 16
      invariant 0 <= i <= 16
      invariant forall k | 0 <= k < output.Length :: output[k] == if outAt <= k < outAt + i then b[k - outAt]
                else before[k]
    {
      assert input[inAt + i] == b[i];
      output[outAt + i] := input[inAt + i];
      i := i + 1;
    }
  }

  /** Cipher, seen on the whole buffer that the state is overlaid on. */
  method CipherInPlace(e: Engine)
    requires e.Valid()
    modifies e.state
    ensures e.state[..] == Patched(old(e.state[..]), e.at, Cipher(old(e.state[e.at..e.at + 16]), e.roundKey[..]))
  {
    hide Cipher;
    e.Cipher();
    assert e.state[..e.at] == e.Around().0 && e.state[e.at + 16..] == e.Around().1;
    assert e.state[..] == e.state[..e.at] + e.state[e.at..e.at + 16] + e.state[e.at + 16..];
  }

  method InvCipherInPlace(e: Engine)
    requires e.Valid()
    modifies e.state
    ensures e.state[..] == Patched(old(e.state[..]), e.at, InvCipher(old(e.state[e.at..e.at + 16]), e.roundKey[..]))
  {
    hide InvCipher;
    e.InvCipher();
    assert e.state[..e.at] == e.Around().0 && e.state[e.at + 16..] == e.Around().1;
    assert e.state[..] == e.state[..e.at] + e.state[e.at..e.at + 16] + e.state[e.at + 16..];
  }

  /** AES128_ECB_encrypt. */
  method EncryptBlock(e: Engine, input: array<bv8>, inAt: nat, key: array<bv8>, output: array<bv8>, outAt: nat)
    requires outAt + 16 <= output.Length && inAt + 16 <= input.Length && (output == input ==> outAt == inAt)
    requires e.roundKey.Length == 176 && e.roundKey !in {input, key, output} && key.Length >= 16 && key != output
    modifies e, e.roundKey, output
    ensures output[..] == Patched(old(output[..]), outAt, Cipher(old(input[inAt..inAt + 16]), Schedule(key[..16])))
  {
    hide Cipher, Schedule, Patched;
    BlockCopy(output, outAt, input, inAt);
    e.state, e.at := output, outAt;
    e.KeyExpansion(key);
    CipherInPlace(e);
    PatchedParts(old(output[..]), outAt, old(input[inAt..inAt + 16]));
    PatchedTwice(old(output[..]), outAt, old(input[inAt..inAt + 16]),
                 Cipher(old(input[inAt..inAt + 16]), Schedule(key[..16])));
  }

  /** AES128_ECB_decrypt. */
  method DecryptBlock(e: Engine, input: array<bv8>, inAt: nat, key: array<bv8>, output: array<bv8>, outAt: nat)
    requires outAt + 16 <= output.Length && inAt + 16 <= input.Length && (output == input ==> outAt == inAt)
    requires e.roundKey.Length == 176 && e.roundKey !in {input, key, output} && key.Length >= 16 && key != output
    modifies e, e.roundKey, output
    ensures output[..] == Patched(old(output[..]), outAt, InvCipher(old(input[inAt..inAt + 16]), Schedule(key[..16])))
  {
    hide InvCipher, Schedule, Patched;
    BlockCopy(output, outAt, input, inAt);
    e.state, e.at := output, outAt;
    e.KeyExpansion(key);
    InvCipherInPlace(e);
    PatchedParts(old(output[..]), outAt, old(input[inAt..inAt + 16]));
    PatchedTwice(old(output[..]), outAt, old(input[inAt..inAt + 16]),
                 InvCipher(old(input[inAt..inAt + 16]), Schedule(key[..16])));
  }

  /** Add_Pkcs: the padding is written behind the message, in place. */
  method AddPkcs(p: array<bv8>, len: nat) returns (r: nat)
    requires len / 16 * 16 + 16 <= p.Length
    modifies p
    ensures r == len / 16 * 16 + 16 && p[..] == Padded(old(p[..len])) + old(p[r..])
  {
    var cz := 16 - len % 16;
    var pad := cz as bv8;
    ghost var before := p[..];
    var i := 0;
    while i < cz
      invariant 0 <= i <= cz
      invariant forall k | 0 <= k < p.Length :: p[k] == if len <= k < len + i then pad else before[k]
    {
      p[len + i] := pad;
      i := i + 1;
    }
    r := len + cz;
    PaddedInPlace(before, len, p[..]);
  }

  lemma PaddedInPlace(before: seq<bv8>, len: nat, after: seq<bv8>)
    requires len / 16 * 16 + 16 <= |before| == |after|
    requires var cz := 16 - len % 16; var pad := cz as bv8;
             forall k | 0 <= k < |after| :: after[k] == if len <= k < len + cz then pad else before[k]
    ensures after == Padded(before[..len]) + before[len / 16 * 16 + 16..]
  {
  }

  /** The output buffer when n blocks are done; o is its content before. */
  function EcbProgress(p: seq<bv8>, w: RoundKeys, o: seq<bv8>, n: nat): seq<bv8>
    requires 16 * n <= |p| && 16 * n <= |o|
  {
    EcbEncrypted(p, w, n) + o[16 * n..]
  }

  lemma EcbProgressStep(p: seq<bv8>, w: RoundKeys, o: seq<bv8>, n: nat)
    requires 16 * n + 16 <= |p| && 16 * n + 16 <= |o|
    ensures |EcbProgress(p, w, o, n)| == |o| && EcbProgress(p, w, o, n)[16 * n..16 * n + 16] == BlockAt(o, n)
    ensures Patched(EcbProgress(p, w, o, n), 16 * n, Cipher(BlockAt(p, n), w)) == EcbProgress(p, w, o, n + 1)
  {
    hide Cipher, Patched;
    Advance(EcbEncrypted(p, w, n), o, n, Cipher(BlockAt(p, n), w));
  }

  function InvEcbProgress(c: seq<bv8>, w: RoundKeys, o: seq<bv8>, n: nat): seq<bv8>
    requires 16 * n <= |c| && 16 * n <= |o|
  {
    EcbDecrypted(c, w, n) + o[16 * n..]
  }

  lemma InvEcbProgressStep(c: seq<bv8>, w: RoundKeys, o: seq<bv8>, n: nat)
    requires 16 * n + 16 <= |c| && 16 * n + 16 <= |o|
    ensures |InvEcbProgress(c, w, o, n)| == |o| && InvEcbProgress(c, w, o, n)[16 * n..16 * n + 16] == BlockAt(o, n)
    ensures Patched(InvEcbProgress(c, w, o, n), 16 * n, InvCipher(BlockAt(c, n), w)) == InvEcbProgress(c, w, o, n + 1)
  {
    hide InvCipher, Patched;
    Advance(EcbDecrypted(c, w, n), o, n, InvCipher(BlockAt(c, n), w));
  }

  /** aes128_ecb_encrypt; the output may be the input buffer itself. */
  method EcbEncrypt(e: Engine, input: array<bv8>, inputLen: nat, key: array<bv8>, output: array<bv8>) returns (len: nat)
    requires inputLen < 0x1_0000 && inputLen / 16 * 16 + 16 <= input.Length && inputLen / 16 * 16 + 16 <= output.Length
    requires e.roundKey.Length == 176 && e.roundKey !in {input, key, output} && key.Length >= 16
             && key !in {input, output}
    modifies e, e.roundKey, input, output
    ensures len == inputLen / 16 * 16 + 16
    ensures output[..] == EcbEncrypted(Padded(old(input[..inputLen])), Schedule(key[..16]), inputLen / 16 + 1)
            + old(output[len..])
    ensures input != output ==> input[..] == Padded(old(input[..inputLen])) + old(input[len..])
  {
    hide Schedule, Padded, EcbEncrypted;
    ghost var (padded, behind) := (Padded(input[..inputLen]), input[inputLen / 16 * 16 + 16..]);
    Cut(padded, behind);
    len := AddPkcs(input, inputLen);
    assert input[..len] == input[..][..len] == padded && input[len..] == input[..][len..] == behind;
    EncryptBlocks(e, input, inputLen / 16 + 1, key, output, padded);
  }

  lemma Cut(a: seq<bv8>, b: seq<bv8>)
    ensures (a + b)[..|a|] == a && (a + b)[|a|..] == b
  {
  }

  /** The loop of aes128_ecb_encrypt. */
  method EncryptBlocks(e: Engine, input: array<bv8>, count: nat, key: array<bv8>, output: array<bv8>,
                       ghost padded: seq<bv8>)
    requires |padded| == 16 * count <= input.Length && 16 * count <= output.Length && input[..16 * count] == padded
    requires e.roundKey.Length == 176 && e.roundKey !in {input, key, output} && key.Length >= 16 && key != output
    modifies e, e.roundKey, output
    ensures output[..] == EcbEncrypted(padded, Schedule(key[..16]), count) + old(output[16 * count..])
  {
    hide Cipher, Schedule, Patched, EcbEncrypted, EcbProgress;
    ghost var (w, given, o) := (Schedule(key[..16]), input[..], output[..]);
    NothingDone(padded, w, o);
    var index := 0;
    while index < count
      invariant 0 <= index <= count
      invariant input != output ==> input[..] == given
      invariant output[..] == EcbProgress(padded, w, o, index)
    {
      EcbProgressStep(padded, w, o, index);
      SameBlock(padded, given, index);
      assert input[16 * index..16 * index + 16] == input[..][16 * index..16 * index + 16] == BlockAt(given, index);
      EncryptBlock(e, input, 16 * index, key, output, 16 * index);
      index := index + 1;
    }
    AllDone(padded, w, o, count);
  }

  lemma SameBlock(p: seq<bv8>, s: seq<bv8>, i: nat)
    requires 16 * i + 16 <= |p| <= |s| && s[..|p|] == p
    ensures BlockAt(p, i) == BlockAt(s, i)
  {
    assert BlockAt(s, i) == s[..|p|][16 * i..16 * i + 16];
  }

  lemma NothingDone(p: seq<bv8>, w: RoundKeys, o: seq<bv8>)
    ensures EcbProgress(p, w, o, 0) == o && InvEcbProgress(p, w, o, 0) == o
  {
  }

  lemma AllDone(p: seq<bv8>, w: RoundKeys, o: seq<bv8>, n: nat)
    requires 16 * n <= |p| && 16 * n <= |o|
    ensures EcbProgress(p, w, o, n) == EcbEncrypted(p, w, n) + o[16 * n..]
    ensures InvEcbProgress(p, w, o, n) == EcbDecrypted(p, w, n) + o[16 * n..]
  {
    hide EcbEncrypted, EcbDecrypted;
  }

  /** aes128_ecb_decrypt: bytes behind the last whole block are not written, the byte at base_len - 1 is returned. */
  method EcbDecrypt(e: Engine, input: array<bv8>, baseLen: nat, key: array<bv8>, output: array<bv8>) returns (pad: bv8)
    requires 1 <= baseLen <= input.Length && baseLen <= output.Length
    requires e.roundKey.Length == 176 && e.roundKey !in {input, key, output} && key.Length >= 16 && key != output
    modifies e, e.roundKey, output
    ensures output[..] == EcbDecrypted(old(input[..]), Schedule(key[..16]), baseLen / 16)
            + old(output[baseLen / 16 * 16..])
    ensures pad == output[baseLen - 1]
  {
    hide Schedule, EcbDecrypted;
    DecryptBlocks(e, input, baseLen / 16, key, output);
    pad := output[baseLen - 1];
  }

  /** The loop of aes128_ecb_decrypt. */
  method DecryptBlocks(e: Engine, input: array<bv8>, count: nat, key: array<bv8>, output: array<bv8>)
    requires 16 * count <= input.Length && 16 * count <= output.Length
    requires e.roundKey.Length == 176 && e.roundKey !in {input, key, output} && key.Length >= 16 && key != output
    modifies e, e.roundKey, output
    ensures output[..] == EcbDecrypted(old(input[..]), Schedule(key[..16]), count) + old(output[16 * count..])
  {
    hide InvCipher, Schedule, Patched, EcbDecrypted, InvEcbProgress;
    ghost var (c, w, o) := (input[..], Schedule(key[..16]), output[..]);
    NothingDone(c, w, o);
    var index := 0;
    while index < count
      invariant 0 <= index <= count
      invariant input != output ==> input[..] == c
      invariant output[..] == InvEcbProgress(c, w, o, index)
    {
      InvEcbProgressStep(c, w, o, index);
      assert input[16 * index..16 * index + 16] == input[..][16 * index..16 * index + 16] == BlockAt(c, index);
      DecryptBlock(e, input, 16 * index, key, output, 16 * index);
      index := index + 1;
    }
    AllDone(c, w, o, count);
  }

  // ---------- CBC ----------

  /** The block that is mixed into block n: the initial vector or the previous cipher block. */
  function Chain(c: seq<bv8>, iv: Block, n: nat): Block
    requires 16 * n <= |c|
  {
    if n == 0 then iv else BlockAt(c, n - 1)
  }

  function CbcEncrypted(p: seq<bv8>, w: RoundKeys, iv: Block, n: nat): (c: seq<bv8>)
    requires 16 * n <= |p|
    ensures |c| == 16 * n
  {
    if n == 0 then [] else
      var c := CbcEncrypted(p, w, iv, n - 1);
      c + Cipher(Xor(BlockAt(p, n - 1), Chain(c, iv, n - 1)), w)
  }

  function CbcDecrypted(c: seq<bv8>, w: RoundKeys, iv: Block, n: nat): (p: seq<bv8>)
    requires 16 * n <= |c|
    ensures |p| == 16 * n
  {
    if n == 0 then [] else
      CbcDecrypted(c, w, iv, n - 1) + Xor(InvCipher(BlockAt(c, n - 1), w), Chain(c, iv, n - 1))
  }

  /** Decryption in place, where the block that should be mixed in has already been replaced by its plain block. */
  function CbcInPlace(c: seq<bv8>, w: RoundKeys, iv: Block, n: nat): (p: seq<bv8>)
    requires 16 * n <= |c|
    ensures |p| == 16 * n
  {
    if n == 0 then [] else
      var p := CbcInPlace(c, w, iv, n - 1);
      p + Xor(InvCipher(BlockAt(c, n - 1), w), Chain(p, iv, n - 1))
  }

  /** What encryption leaves in the input buffer: each block with its chain value mixed in. */
  function CbcMixed(p: seq<bv8>, w: RoundKeys, iv: Block, n: nat): (q: seq<bv8>)
    requires 16 * n <= |p|
    ensures |q| == 16 * n
  {
    if n == 0 then [] else
      CbcMixed(p, w, iv, n - 1) + Xor(BlockAt(p, n - 1), Chain(CbcEncrypted(p, w, iv, n - 1), iv, n - 1))
  }

  lemma {:induction false} CbcDecryptedPrefix(c: seq<bv8>, d: seq<bv8>, w: RoundKeys, iv: Block, n: nat)
    requires 16 * n <= |c| <= |d| && d[..|c|] == c
    ensures CbcDecrypted(c, w, iv, n) == CbcDecrypted(d, w, iv, n)
  {
    hide InvCipher, Xor;
    if n > 0 {
      CbcDecryptedPrefix(c, d, w, iv, n - 1);
      assert BlockAt(c, n - 1) == BlockAt(d, n - 1);
      assert n > 1 ==> BlockAt(c, n - 2) == BlockAt(d, n - 2);
    }
  }

  /** CBC decryption undoes CBC encryption for every schedule, vector and number of blocks. */
  lemma {:induction false} CbcInverse(p: seq<bv8>, w: RoundKeys, iv: Block, n: nat)
    requires 16 * n <= |p|
    ensures CbcDecrypted(CbcEncrypted(p, w, iv, n), w, iv, n) == p[..16 * n]
  {
    hide Cipher, InvCipher, Xor, Chain, CbcEncrypted, BlockAt;
    if n > 0 {
      var (c, d) := (CbcEncrypted(p, w, iv, n - 1), CbcEncrypted(p, w, iv, n));
      CbcInverse(p, w, iv, n - 1);
      CbcLast(p, w, iv, n);
      CbcDecryptedPrefix(c, d, w, iv, n - 1);
      var (b, k) := (BlockAt(p, n - 1), Chain(c, iv, n - 1));
      CipherInverse(Xor(b, k), w);
      XorInverse(b, k);
    }
  }

  lemma CbcLast(p: seq<bv8>, w: RoundKeys, iv: Block, n: nat)
    requires 0 < n && 16 * n <= |p|
    ensures var (c, d) := (CbcEncrypted(p, w, iv, n - 1), CbcEncrypted(p, w, iv, n));
            && d[..|c|] == c && Chain(d, iv, n - 1) == Chain(c, iv, n - 1)
            && BlockAt(d, n - 1) == Cipher(Xor(BlockAt(p, n - 1), Chain(c, iv, n - 1)), w)
    ensures p[..16 * n] == p[..16 * (n - 1)] + BlockAt(p, n - 1)
  {
    hide Cipher, Xor;
    var (c, d) := (CbcEncrypted(p, w, iv, n - 1), CbcEncrypted(p, w, iv, n));
    assert n > 1 ==> BlockAt(d, n - 2) == BlockAt(c, n - 2);
  }

  /** Two calls, the second without a vector, encrypt like one: the chain goes on from the last block. */
  lemma {:induction false} CbcContinues(p: seq<bv8>, q: seq<bv8>, w: RoundKeys, iv: Block, n: nat, m: nat)
    requires |p| == 16 * n && 16 * m <= |q|
    ensures var c := CbcEncrypted(p, w, iv, n);
            CbcEncrypted(p + q, w, iv, n + m) == c + CbcEncrypted(q, w, Chain(c, iv, n), m)
    decreases m
  {
    hide Cipher, Xor, Chain, CbcEncrypted, BlockAt;
    var c := CbcEncrypted(p, w, iv, n);
    var k := Chain(c, iv, n);
    if m == 0 {
      CbcPrefix(p, q, w, iv, n);
      CbcNone(q, w, k);
    } else {
      var d := CbcEncrypted(q, w, k, m - 1);
      CbcContinues(p, q, w, iv, n, m - 1);
      CbcNext(p + q, w, iv, n + m);
      CbcNext(q, w, k, m);
      ChainJoined(c, d, iv, n, m - 1);
      BlockBehind(p, q, n, m - 1);
    }
  }

  lemma CbcNone(p: seq<bv8>, w: RoundKeys, iv: Block)
    ensures CbcEncrypted(p, w, iv, 0) == []
  {
  }

  lemma CbcNext(p: seq<bv8>, w: RoundKeys, iv: Block, n: nat)
    requires n > 0 && 16 * n <= |p|
    ensures var c := CbcEncrypted(p, w, iv, n - 1);
            CbcEncrypted(p, w, iv, n) == c + Cipher(Xor(BlockAt(p, n - 1), Chain(c, iv, n - 1)), w)
  {
    hide Cipher, Xor, Chain, BlockAt;
  }

  lemma ChainJoined(c: seq<bv8>, d: seq<bv8>, iv: Block, n: nat, m: nat)
    requires |c| == 16 * n && |d| == 16 * m
    ensures Chain(c + d, iv, n + m) == Chain(d, Chain(c, iv, n), m)
  {
    if m > 0 {
      BlockBehind(c, d, n, m - 1);
    } else {
      assert c + d == c;
    }
  }

  lemma BlockBehind(p: seq<bv8>, q: seq<bv8>, n: nat, m: nat)
    requires |p| == 16 * n && 16 * m + 16 <= |q|
    ensures BlockAt(p + q, n + m) == BlockAt(q, m)
  {
  }

  lemma {:induction false} CbcPrefix(p: seq<bv8>, q: seq<bv8>, w: RoundKeys, iv: Block, n: nat)
    requires 16 * n <= |p|
    ensures CbcEncrypted(p + q, w, iv, n) == CbcEncrypted(p, w, iv, n)
  {
    hide Cipher, Xor, Chain;
    if n > 0 {
      CbcPrefix(p, q, w, iv, n - 1);
      assert BlockAt(p + q, n - 1) == BlockAt(p, n - 1);
    }
  }

  /** Section 6.2 of SP 800-38A: each block is mixed with the cipher block before it, the first with the vector, and
      then enciphered. */
  lemma {:induction false} CbcBlock(p: seq<bv8>, w: RoundKeys, iv: Block, n: nat, i: nat)
    requires 16 * n <= |p| && i < n
    ensures var c := CbcEncrypted(p, w, iv, n);
            BlockAt(c, i) == Cipher(Xor(BlockAt(p, i), if i == 0 then iv else BlockAt(c, i - 1)), w)
  {
    hide Cipher, Xor, Chain, BlockAt, CbcEncrypted;
    CbcNext(p, w, iv, n);
    var (b, c) := (CbcEncrypted(p, w, iv, n - 1), CbcEncrypted(p, w, iv, n));
    var last := Cipher(Xor(BlockAt(p, n - 1), Chain(b, iv, n - 1)), w);
    Behind(b, last, n - 1);
    ChainIs(b, iv, n - 1);
    if i < n - 1 { CbcBlock(p, w, iv, n - 1, i); }
  }

  lemma ChainIs(c: seq<bv8>, iv: Block, n: nat)
    requires 16 * n <= |c|
    ensures Chain(c, iv, n) == if n == 0 then iv else BlockAt(c, n - 1)
  {
  }

  method XorWithIv(buf: array<bv8>, at: nat, iv: array<bv8>, ivAt: nat)
    requires at + 16 <= buf.Length && ivAt + 16 <= iv.Length && (buf == iv ==> ivAt + 16 <= at)
    modifies buf
    ensures buf[..] == Patched(old(buf[..]), at, Xor(old(buf[at..at + 16]), old(iv[ivAt..ivAt + 16])))
  {
    ghost var (before, x) := (buf[..], Xor(buf[at..at + 16], iv[ivAt..ivAt + 16]));
    var i := 0;
    while i < 16
      invariant 0 <= i <= 16
      invariant forall k | 0 <= k < buf.Length :: buf[k] == if at <= k < at + i then x[k - at] else before[k]
    {
      assert x[i] == buf[at + i] ^ iv[ivAt + i];
      buf[at + i] := buf[at + i] ^ iv[ivAt + i];
      i := i + 1;
    }
  }

  /** The static Iv: where the chain value of the next block lies, kept from call to call. */
  class ChainPointer {
    var buf: array?<bv8>
    var at: nat

    constructor () {
      buf, at := null, 0;
    }
  }

  /** The turns of the loop over a length; a last block that is not whole takes a whole turn. */
  function Turns(length: nat): nat { (length + 15) / 16 }

  /** The bytes of a buffer that a call reaches: a length with a remainder takes one block behind the loop's. */
  function Reach(length: nat): nat {
    if length == 0 then 16 else 16 * Turns(length) + (if length % 16 == 0 then 0 else 16)
  }

  /** The first rem bytes of block n of the input, filled up with zeros. */
  function ZeroFilled(p: seq<bv8>, n: nat, rem: nat): Block
    requires rem < 16 && (rem > 0 ==> 16 * n + 16 <= |p|)
  {
    (if rem == 0 then [] else p[16 * n..16 * n + rem]) + seq(16 - rem, _ => 0)
  }

  /** The output buffer after n turns of the loop; before the first one it starts with a copy of the input block. */
  function CbcOutput(p: seq<bv8>, w: RoundKeys, iv: Block, o: seq<bv8>, n: nat): (q: seq<bv8>)
    requires 16 * n <= |p| && 16 * n <= |o| && |p| >= 16 && |o| >= 16
    ensures |q| == |o|
  {
    if n == 0 then p[..16] + o[16..] else CbcEncrypted(p, w, iv, n) + o[16 * n..]
  }

  /** The same for decryption; same says that it is done in place. */
  function InvCbcOutput(c: seq<bv8>, w: RoundKeys, iv: Block, o: seq<bv8>, n: nat, same: bool): (q: seq<bv8>)
    requires 16 * n <= |c| && 16 * n <= |o| && |c| >= 16 && |o| >= 16
    ensures |q| == |o|
  {
    if n == 0 then c[..16] + o[16..]
    else (if same then CbcInPlace(c, w, iv, n) else CbcDecrypted(c, w, iv, n)) + o[16 * n..]
  }

  /** The block that turn i of decryption mixes in. */
  function Link(c: seq<bv8>, w: RoundKeys, iv: Block, i: nat, same: bool): Block
    requires 16 * i <= |c|
  {
    Chain(if same then CbcInPlace(c, w, iv, i) else c, iv, i)
  }

  /** Only a length with a remainder has a block written behind those of the loop. */
  function WithTail(q: seq<bv8>, n: nat, rem: nat, b: Block): seq<bv8>
    requires rem > 0 ==> 16 * n + 16 <= |q|
  {
    if rem == 0 then q else Patched(q, 16 * n, b)
  }

  /** How both calls begin. Without a key the round keys stay, without a vector the chain goes on. */
  method SetUp(e: Engine, s: ChainPointer, output: array<bv8>, input: array<bv8>, key: array?<bv8>, iv: array?<bv8>)
    requires 16 <= input.Length && 16 <= output.Length
    requires key != null ==> key.Length >= 16 && key != output
    requires iv != null ==> iv.Length >= 16 && iv != output
    requires iv == null ==> s.buf != null && s.at + 16 <= s.buf.Length && s.buf != output
    requires e.roundKey.Length == 176 && e.roundKey !in {input, output}
    requires e.roundKey != key && e.roundKey != iv && e.roundKey != s.buf
    modifies e, e.roundKey, s, output
    ensures e.roundKey[..] == if key == null then old(e.roundKey[..]) else Schedule(old(key[..16]))
    ensures if iv == null then s.buf == old(s.buf) && s.at == old(s.at) else s.buf == iv && s.at == 0
    ensures s.buf[s.at..s.at + 16] == if iv == null then old(s.buf[s.at..s.at + 16]) else old(iv[..16])
    ensures output[..] == Patched(old(output[..]), 0, old(input[..16]))
  {
    hide Schedule, Patched;
    BlockCopy(output, 0, input, 0);
    e.state, e.at := output, 0;
    if key != null { e.KeyExpansion(key); }
    if iv != null { s.buf, s.at := iv, 0; }
  }

  /** AES128_CBC_encrypt_buffer, also in place. */
  method CbcEncrypt(e: Engine, s: ChainPointer, output: array<bv8>, input: array<bv8>, length: nat,
                    key: array?<bv8>, iv: array?<bv8>)
    requires Reach(length) <= input.Length && Reach(length) <= output.Length
    requires key != null ==> key.Length >= 16 && key != output
    requires iv != null ==> iv.Length >= 16 && iv != input && iv != output
    requires iv == null ==> s.buf != null && s.at + 16 <= s.buf.Length && s.buf != input && s.buf != output
    requires e.roundKey.Length == 176 && e.roundKey !in {input, output}
    requires e.roundKey != key && e.roundKey != iv && e.roundKey != s.buf
    modifies e, e.roundKey, s, input, output
    ensures e.roundKey[..] == if key == null then old(e.roundKey[..]) else Schedule(old(key[..16]))
    ensures var (p, w, n, rem) := (old(input[..]), e.roundKey[..], Turns(length), length % 16);
            var v := if iv == null then old(s.buf[s.at..s.at + 16]) else old(iv[..16]);
            && (input != output ==> input[..] == CbcMixed(p, w, v, n) + p[16 * n..])
            && output[..] == WithTail(CbcOutput(p, w, v, old(output[..]), n), n, rem, Cipher(ZeroFilled(p, n, rem), w))
    ensures if length > 0 then s.buf == output && s.at == 16 * Turns(length) - 16
            else if iv != null then s.buf == iv && s.at == 0 else s.buf == old(s.buf) && s.at == old(s.at)
  {
    hide Cipher, Schedule, Patched, MixedProgress, CbcMixed, CbcEncrypted, CbcOutput, ZeroFilled, WithTail;
    ghost var (p, o) := (input[..], output[..]);
    ghost var v := if iv == null then s.buf[s.at..s.at + 16] else iv[..16];
    SetUp(e, s, output, input, key, iv);
    ghost var w := e.roundKey[..];
    CbcStart(p, w, v, o);
    CbcTurns(e, s, output, input, length, p, v, o);
    if input == output { OutputEnd(p, w, v, length); } else { MixedEnd(p, w, v, length); }
    CbcTail(e, output, input, Turns(length), length % 16);
  }

  /** The loop of AES128_CBC_encrypt_buffer. */
  method CbcTurns(e: Engine, s: ChainPointer, output: array<bv8>, input: array<bv8>, length: nat,
                  ghost p: seq<bv8>, ghost v: Block, ghost o: seq<bv8>)
    requires e.roundKey.Length == 176 && e.roundKey !in {input, output} && (input == output ==> p == o)
    requires |p| == input.Length && |o| == output.Length && 16 * Turns(length) <= |p| && 16 * Turns(length) <= |o|
    requires |p| >= 16 && |o| >= 16
    requires input != output ==> input[..] == MixedProgress(p, e.roundKey[..], v, 0)
    requires output[..] == CbcOutput(p, e.roundKey[..], v, o, 0)
    requires s.buf != null && s.at + 16 <= s.buf.Length && s.buf != output && s.buf != input
    requires s.buf[s.at..s.at + 16] == v
    modifies e, s, input, output
    ensures input != output ==> input[..] == MixedProgress(p, e.roundKey[..], v, Turns(length))
    ensures output[..] == CbcOutput(p, e.roundKey[..], v, o, Turns(length))
    ensures if length > 0 then s.buf == output && s.at == 16 * Turns(length) - 16
            else s.buf == old(s.buf) && s.at == old(s.at)
  {
    hide Cipher, Xor, Patched, Chain, MixedProgress, MixedBlock, CbcOutput;
    ghost var w := e.roundKey[..];
    var i := 0;
    while 16 * i < length
      invariant 0 <= i <= Turns(length)
      invariant e.roundKey[..] == w
      invariant input != output ==> input[..] == MixedProgress(p, w, v, i)
      invariant output[..] == CbcOutput(p, w, v, o, i)
      invariant s.buf != null && s.at + 16 <= s.buf.Length
      invariant if i == 0 then s.buf == old(s.buf) && s.at == old(s.at) && s.buf[s.at..s.at + 16] == v
                else s.buf == output && s.at == 16 * i - 16
    {
      CbcTurn(e, output, input, s.buf, s.at, i, p, v, o);
      s.buf, s.at, i := output, 16 * i, i + 1;
    }
  }

  /** What both calls do behind the loop, up to the cipher. */
  method TailCopy(output: array<bv8>, input: array<bv8>, n: nat, rem: nat)
    requires 16 * n + 16 <= input.Length && 16 * n + 16 <= output.Length && rem < 16
    modifies output
    ensures output[..] == Patched(old(output[..]), 16 * n, ZeroFilled(old(input[..]), n, rem))
  {
    BlockCopy(output, 16 * n, input, 16 * n);
    ghost var (p, copied) := (old(input[..]), output[..]);
    var i := 0;
    while i < 16 - rem
      invariant 0 <= i <= 16 - rem
      invariant forall k | 0 <= k < output.Length ::
                  output[k] == if 16 * n + rem <= k < 16 * n + rem + i then 0 else copied[k]
    {
      output[16 * n + rem + i] := 0;
      i := i + 1;
    }
    ZeroedTail(old(output[..]), p, n, rem, output[..]);
  }

  lemma ZeroedTail(o: seq<bv8>, p: seq<bv8>, n: nat, rem: nat, q: seq<bv8>)
    requires 16 * n + 16 <= |p| && 16 * n + 16 <= |o| == |q| && rem < 16
    requires forall k | 0 <= k < |q| ::
               q[k] == if 16 * n + rem <= k < 16 * n + 16 then 0 else Patched(o, 16 * n, BlockAt(p, n))[k]
    ensures q == Patched(o, 16 * n, ZeroFilled(p, n, rem))
  {
  }

  method CbcTail(e: Engine, output: array<bv8>, input: array<bv8>, n: nat, rem: nat)
    requires rem > 0 ==> 16 * n + 16 <= input.Length && 16 * n + 16 <= output.Length
    requires rem < 16 && e.roundKey.Length == 176 && e.roundKey !in {input, output}
    modifies e, output
    ensures output[..] == WithTail(old(output[..]), n, rem, Cipher(ZeroFilled(old(input[..]), n, rem), e.roundKey[..]))
  {
    hide Cipher, Patched, ZeroFilled;
    if rem > 0 {
      ghost var (before, b) := (output[..], ZeroFilled(input[..], n, rem));
      TailCopy(output, input, n, rem);
      e.state, e.at := output, 16 * n;
      PatchedParts(before, 16 * n, b);
      CipherInPlace(e);
      PatchedTwice(before, 16 * n, b, Cipher(b, e.roundKey[..]));
    }
  }

  method InvCbcTail(e: Engine, output: array<bv8>, input: array<bv8>, n: nat, rem: nat)
    requires rem > 0 ==> 16 * n + 16 <= input.Length && 16 * n + 16 <= output.Length
    requires rem < 16 && e.roundKey.Length == 176 && e.roundKey !in {input, output}
    modifies e, output
    ensures output[..]
            == WithTail(old(output[..]), n, rem, InvCipher(ZeroFilled(old(input[..]), n, rem), e.roundKey[..]))
  {
    hide InvCipher, Patched, ZeroFilled;
    if rem > 0 {
      ghost var (before, b) := (output[..], ZeroFilled(input[..], n, rem));
      TailCopy(output, input, n, rem);
      e.state, e.at := output, 16 * n;
      PatchedParts(before, 16 * n, b);
      InvCipherInPlace(e);
      PatchedTwice(before, 16 * n, b, InvCipher(b, e.roundKey[..]));
    }
  }

  /** The block behind the loop's is the input's own. */
  lemma OwnTail(q: seq<bv8>, p: seq<bv8>, n: nat, rem: nat)
    requires |q| == 16 * n && rem < 16 && 16 * n <= |p| && (rem > 0 ==> 16 * n + 16 <= |p|)
    ensures ZeroFilled(q + p[16 * n..], n, rem) == ZeroFilled(p, n, rem)
  {
    if rem > 0 {
      assert (q + p[16 * n..])[16 * n..16 * n + rem] == p[16 * n..16 * n + rem];
    }
  }

  lemma OutputEnd(p: seq<bv8>, w: RoundKeys, iv: Block, length: nat)
    requires Reach(length) <= |p|
    ensures var (n, rem) := (Turns(length), length % 16);
            ZeroFilled(CbcOutput(p, w, iv, p, n), n, rem) == ZeroFilled(p, n, rem)
  {
    hide ZeroFilled, CbcEncrypted;
    assert p[..16] + p[16..] == p;
    OwnTail(CbcEncrypted(p, w, iv, Turns(length)), p, Turns(length), length % 16);
  }

  lemma MixedEnd(p: seq<bv8>, w: RoundKeys, iv: Block, length: nat)
    requires Reach(length) <= |p|
    ensures var (n, rem) := (Turns(length), length % 16);
            && MixedProgress(p, w, iv, n) == CbcMixed(p, w, iv, n) + p[16 * n..]
            && ZeroFilled(MixedProgress(p, w, iv, n), n, rem) == ZeroFilled(p, n, rem)
  {
    hide ZeroFilled, CbcMixed;
    OwnTail(CbcMixed(p, w, iv, Turns(length)), p, Turns(length), length % 16);
  }

  /** One turn of the loop: from holds the chain value. */
  method CbcTurn(e: Engine, output: array<bv8>, input: array<bv8>, from: array<bv8>, fromAt: nat, i: nat,
                 ghost p: seq<bv8>, ghost v: Block, ghost o: seq<bv8>)
    requires e.roundKey.Length == 176 && e.roundKey !in {input, output} && (input == output ==> p == o)
    requires 16 * i + 16 <= |p| == input.Length && 16 * i + 16 <= |o| == output.Length && fromAt + 16 <= from.Length
    requires input != output ==> input[..] == MixedProgress(p, e.roundKey[..], v, i)
    requires output[..] == CbcOutput(p, e.roundKey[..], v, o, i)
    requires if i == 0 then from[fromAt..fromAt + 16] == v && from !in {input, output}
             else from == output && fromAt == 16 * i - 16
    modifies e, input, output
    ensures input != output ==> input[..] == MixedProgress(p, e.roundKey[..], v, i + 1)
    ensures output[..] == CbcOutput(p, e.roundKey[..], v, o, i + 1)
  {
    hide Cipher, Xor, Patched, Chain, CbcOutput, MixedProgress, MixedBlock;
    ghost var w := e.roundKey[..];
    MixedStep(p, w, v, i);
    CbcStep(p, w, v, o, i);
    PatchedTwice(output[..], 16 * i, MixedBlock(p, w, v, i), Cipher(MixedBlock(p, w, v, i), w));
    PatchedParts(input[..], 16 * i, MixedBlock(p, w, v, i));
    assert input[16 * i..16 * i + 16] == input[..][16 * i..16 * i + 16];
    assert i > 0 ==> from[fromAt..fromAt + 16] == output[..][16 * i - 16..16 * i];
    XorWithIv(input, 16 * i, from, fromAt);
    assert input[16 * i..16 * i + 16] == input[..][16 * i..16 * i + 16];
    EncryptCopy(e, output, input, i);
  }

  /** Block i after the chain value is mixed in. */
  function MixedBlock(p: seq<bv8>, w: RoundKeys, iv: Block, i: nat): Block
    requires 16 * i + 16 <= |p|
  {
    Xor(BlockAt(p, i), Chain(CbcEncrypted(p, w, iv, i), iv, i))
  }

  /** The input buffer when i blocks are done. */
  function MixedProgress(p: seq<bv8>, w: RoundKeys, iv: Block, i: nat): seq<bv8>
    requires 16 * i <= |p|
  {
    CbcMixed(p, w, iv, i) + p[16 * i..]
  }

  lemma CbcStart(p: seq<bv8>, w: RoundKeys, iv: Block, o: seq<bv8>)
    requires |p| >= 16 && |o| >= 16
    ensures CbcOutput(p, w, iv, o, 0) == Patched(o, 0, p[..16]) && MixedProgress(p, w, iv, 0) == p
  {
  }

  lemma MixedStep(p: seq<bv8>, w: RoundKeys, iv: Block, i: nat)
    requires 16 * i + 16 <= |p|
    ensures |MixedProgress(p, w, iv, i)| == |p| && MixedProgress(p, w, iv, i)[16 * i..16 * i + 16] == BlockAt(p, i)
    ensures Patched(MixedProgress(p, w, iv, i), 16 * i, MixedBlock(p, w, iv, i)) == MixedProgress(p, w, iv, i + 1)
    ensures MixedBlock(p, w, iv, i) == Xor(BlockAt(p, i), Chain(CbcEncrypted(p, w, iv, i), iv, i))
  {
    hide Patched, Xor, Chain, CbcEncrypted;
    Advance(CbcMixed(p, w, iv, i), p, i, MixedBlock(p, w, iv, i));
  }

  lemma CbcStep(p: seq<bv8>, w: RoundKeys, iv: Block, o: seq<bv8>, i: nat)
    requires 16 * i + 16 <= |p| && 16 * i + 16 <= |o|
    ensures |CbcOutput(p, w, iv, o, i)| == |o|
    ensures Patched(CbcOutput(p, w, iv, o, i), 16 * i, Cipher(MixedBlock(p, w, iv, i), w))
            == CbcOutput(p, w, iv, o, i + 1)
    ensures i > 0 ==> CbcOutput(p, w, iv, o, i)[16 * i - 16..16 * i] == Chain(CbcEncrypted(p, w, iv, i), iv, i)
    ensures i == 0 ==> iv == Chain(CbcEncrypted(p, w, iv, i), iv, i)
    ensures p == o ==> CbcOutput(p, w, iv, o, i)[16 * i..16 * i + 16] == BlockAt(p, i)
  {
    hide Patched, Xor, Cipher;
    var (c, b) := (CbcEncrypted(p, w, iv, i), Cipher(MixedBlock(p, w, iv, i), w));
    FirstOrNext(c, o, i, p[..16], b);
    assert CbcEncrypted(p, w, iv, i + 1) == c + b;
    if i > 0 {
      assert (c + o[16 * i..])[16 * i - 16..16 * i] == c[16 * i - 16..16 * i] == BlockAt(c, i - 1);
    }
  }

  /** Block i of the output is done next; before the first one the output starts with a copy of the input block. */
  lemma FirstOrNext(c: seq<bv8>, o: seq<bv8>, i: nat, first: Block, b: Block)
    requires |c| == 16 * i && 16 * i + 16 <= |o|
    ensures var before := if i == 0 then first + o[16..] else c + o[16 * i..];
            |before| == |o| && Patched(before, 16 * i, b) == (c + b) + o[16 * (i + 1)..]
  {
  }

  /** Copies block i to the output and encrypts it there. */
  method EncryptCopy(e: Engine, output: array<bv8>, input: array<bv8>, i: nat)
    requires 16 * i + 16 <= input.Length && 16 * i + 16 <= output.Length
    requires e.roundKey.Length == 176 && e.roundKey !in {input, output}
    modifies e, output
    ensures output[..] == Patched(old(output[..]), 16 * i, Cipher(old(input[16 * i..16 * i + 16]), e.roundKey[..]))
  {
    hide Cipher, Patched;
    BlockCopy(output, 16 * i, input, 16 * i);
    e.state, e.at := output, 16 * i;
    CipherInPlace(e);
    PatchedParts(old(output[..]), 16 * i, old(input[16 * i..16 * i + 16]));
    PatchedTwice(old(output[..]), 16 * i, old(input[16 * i..16 * i + 16]),
                 Cipher(old(input[16 * i..16 * i + 16]), e.roundKey[..]));
  }

  /** AES128_CBC_decrypt_buffer, also in place. */
  method CbcDecrypt(e: Engine, s: ChainPointer, output: array<bv8>, input: array<bv8>, length: nat,
                    key: array?<bv8>, iv: array?<bv8>)
    requires Reach(length) <= input.Length && Reach(length) <= output.Length
    requires key != null ==> key.Length >= 16 && key != output
    requires iv != null ==> iv.Length >= 16 && iv != output
    requires iv == null ==> s.buf != null && s.at + 16 <= s.buf.Length && s.buf != output
    requires e.roundKey.Length == 176 && e.roundKey !in {input, output}
    requires e.roundKey != key && e.roundKey != iv && e.roundKey != s.buf
    modifies e, e.roundKey, s, output
    ensures e.roundKey[..] == if key == null then old(e.roundKey[..]) else Schedule(old(key[..16]))
    ensures var (c, w, n, rem) := (old(input[..]), e.roundKey[..], Turns(length), length % 16);
            var v := if iv == null then old(s.buf[s.at..s.at + 16]) else old(iv[..16]);
            output[..] == WithTail(InvCbcOutput(c, w, v, old(output[..]), n, input == output), n, rem,
                                   InvCipher(ZeroFilled(c, n, rem), w))
    ensures if length > 0 then s.buf == input && s.at == 16 * Turns(length) - 16
            else if iv != null then s.buf == iv && s.at == 0 else s.buf == old(s.buf) && s.at == old(s.at)
  {
    hide InvCipher, Schedule, Patched, CbcInPlace, InvCbcOutput, ZeroFilled, WithTail;
    ghost var (c, o) := (input[..], output[..]);
    ghost var v := if iv == null then s.buf[s.at..s.at + 16] else iv[..16];
    SetUp(e, s, output, input, key, iv);
    ghost var w := e.roundKey[..];
    InvCbcStart(c, w, v, o, input == output);
    InvCbcTurns(e, s, output, input, length, c, v, o);
    if input == output { InvOutputEnd(c, w, v, length); }
    InvCbcTail(e, output, input, Turns(length), length % 16);
  }

  lemma InvOutputEnd(c: seq<bv8>, w: RoundKeys, iv: Block, length: nat)
    requires Reach(length) <= |c|
    ensures var (n, rem) := (Turns(length), length % 16);
            ZeroFilled(InvCbcOutput(c, w, iv, c, n, true), n, rem) == ZeroFilled(c, n, rem)
  {
    hide ZeroFilled, CbcInPlace;
    assert c[..16] + c[16..] == c;
    OwnTail(CbcInPlace(c, w, iv, Turns(length)), c, Turns(length), length % 16);
  }

  /** The loop of AES128_CBC_decrypt_buffer. */
  method InvCbcTurns(e: Engine, s: ChainPointer, output: array<bv8>, input: array<bv8>, length: nat,
                     ghost c: seq<bv8>, ghost v: Block, ghost o: seq<bv8>)
    requires e.roundKey.Length == 176 && e.roundKey !in {input, output} && (input == output ==> c == o)
    requires |c| == input.Length && |o| == output.Length && 16 * Turns(length) <= |c| && 16 * Turns(length) <= |o|
    requires |c| >= 16 && |o| >= 16 && (input != output ==> input[..] == c)
    requires output[..] == InvCbcOutput(c, e.roundKey[..], v, o, 0, input == output)
    requires s.buf != null && s.at + 16 <= s.buf.Length && s.buf != output && s.buf[s.at..s.at + 16] == v
    modifies e, s, output
    ensures output[..] == InvCbcOutput(c, e.roundKey[..], v, o, Turns(length), input == output)
    ensures if length > 0 then s.buf == input && s.at == 16 * Turns(length) - 16
            else s.buf == old(s.buf) && s.at == old(s.at)
  {
    hide InvCipher, Xor, Patched, Link, InvCbcOutput;
    ghost var w := e.roundKey[..];
    var i := 0;
    while 16 * i < length
      invariant 0 <= i <= Turns(length)
      invariant e.roundKey[..] == w && (input != output ==> input[..] == c)
      invariant output[..] == InvCbcOutput(c, w, v, o, i, input == output)
      invariant s.buf != null && s.at + 16 <= s.buf.Length
      invariant if i == 0 then s.buf == old(s.buf) && s.at == old(s.at) && s.buf[s.at..s.at + 16] == v
                else s.buf == input && s.at == 16 * i - 16
    {
      InvCbcTurn(e, output, input, s.buf, s.at, i, c, v, o);
      s.buf, s.at, i := input, 16 * i, i + 1;
    }
  }

  /** One turn of the loop: from holds the chain value. */
  method InvCbcTurn(e: Engine, output: array<bv8>, input: array<bv8>, from: array<bv8>, fromAt: nat, i: nat,
                    ghost c: seq<bv8>, ghost v: Block, ghost o: seq<bv8>)
    requires e.roundKey.Length == 176 && e.roundKey !in {input, output} && (input == output ==> c == o)
    requires 16 * i + 16 <= |c| == input.Length && 16 * i + 16 <= |o| == output.Length && fromAt + 16 <= from.Length
    requires input != output ==> input[..] == c
    requires output[..] == InvCbcOutput(c, e.roundKey[..], v, o, i, input == output)
    requires if i == 0 then from[fromAt..fromAt + 16] == v && from != output
             else from == input && fromAt == 16 * i - 16
    modifies e, output
    ensures output[..] == InvCbcOutput(c, e.roundKey[..], v, o, i + 1, input == output)
  {
    hide InvCipher, Xor, Patched, Link, InvCbcOutput;
    ghost var (w, before, same) := (e.roundKey[..], output[..], input == output);
    ghost var b := InvCipher(BlockAt(c, i), w);
    ghost var x := Xor(b, Link(c, w, v, i, same));
    InvCbcStep(c, w, v, o, i, same);
    assert input[16 * i..16 * i + 16] == input[..][16 * i..16 * i + 16] == BlockAt(c, i);
    assert from[fromAt..fromAt + 16] == Link(c, w, v, i, same) by {
      assert i > 0 ==> from[fromAt..fromAt + 16] == input[..][16 * i - 16..16 * i];
    }
    DecryptCopy(e, output, input, i);
    PatchedParts(before, 16 * i, b);
    PatchedTwice(before, 16 * i, b, x);
    assert output[16 * i..16 * i + 16] == output[..][16 * i..16 * i + 16];
    assert same && i > 0 ==> from[fromAt..fromAt + 16] == output[..][..16 * i][16 * i - 16..16 * i];
    XorWithIv(output, 16 * i, from, fromAt);
  }

  lemma InvCbcStart(c: seq<bv8>, w: RoundKeys, iv: Block, o: seq<bv8>, same: bool)
    requires |c| >= 16 && |o| >= 16
    ensures InvCbcOutput(c, w, iv, o, 0, same) == Patched(o, 0, c[..16])
  {
  }

  lemma InvCbcStep(c: seq<bv8>, w: RoundKeys, iv: Block, o: seq<bv8>, i: nat, same: bool)
    requires 16 * i + 16 <= |c| && 16 * i + 16 <= |o| && (same ==> c == o)
    ensures |InvCbcOutput(c, w, iv, o, i, same)| == |o|
    ensures Patched(InvCbcOutput(c, w, iv, o, i, same), 16 * i,
                    Xor(InvCipher(BlockAt(c, i), w), Link(c, w, iv, i, same)))
            == InvCbcOutput(c, w, iv, o, i + 1, same)
    ensures same ==> InvCbcOutput(c, w, iv, o, i, same)[16 * i..16 * i + 16] == BlockAt(c, i)
    ensures Link(c, w, iv, i, same)
            == if i == 0 then iv
               else (if same then InvCbcOutput(c, w, iv, o, i, same) else c)[16 * i - 16..16 * i]
  {
    hide Patched, Xor, InvCipher, CbcInPlace, CbcDecrypted, BlockAt;
    var p := if same then CbcInPlace(c, w, iv, i) else CbcDecrypted(c, w, iv, i);
    var x := Xor(InvCipher(BlockAt(c, i), w), Link(c, w, iv, i, same));
    DecryptNext(c, w, iv, i);
    FirstOrNext(p, o, i, c[..16], x);
    LastDone(p, o, i);
    LinkIs(c, w, iv, i, same);
    if same && i == 0 { StartsAnew(c); }
  }

  lemma LastDone(p: seq<bv8>, o: seq<bv8>, i: nat)
    requires |p| == 16 * i && 16 * i + 16 <= |o|
    ensures i > 0 ==> (p + o[16 * i..])[16 * i - 16..16 * i] == BlockAt(p, i - 1)
    ensures (p + o[16 * i..])[16 * i..16 * i + 16] == BlockAt(o, i)
  {
  }

  lemma LinkIs(c: seq<bv8>, w: RoundKeys, iv: Block, i: nat, same: bool)
    requires 16 * i <= |c|
    ensures Link(c, w, iv, i, same)
            == if i == 0 then iv else BlockAt(if same then CbcInPlace(c, w, iv, i) else c, i - 1)
    ensures i > 0 ==> BlockAt(c, i - 1) == c[16 * i - 16..16 * i]
  {
    hide CbcInPlace;
  }

  lemma StartsAnew(c: seq<bv8>)
    requires |c| >= 16
    ensures (c[..16] + c[16..])[0..16] == BlockAt(c, 0)
  {
  }

  method DecryptCopy(e: Engine, output: array<bv8>, input: array<bv8>, i: nat)
    requires 16 * i + 16 <= input.Length && 16 * i + 16 <= output.Length
    requires e.roundKey.Length == 176 && e.roundKey !in {input, output}
    modifies e, output
    ensures output[..] == Patched(old(output[..]), 16 * i, InvCipher(old(input[16 * i..16 * i + 16]), e.roundKey[..]))
  {
    hide InvCipher, Patched;
    BlockCopy(output, 16 * i, input, 16 * i);
    e.state, e.at := output, 16 * i;
    InvCipherInPlace(e);
    PatchedParts(old(output[..]), 16 * i, old(input[16 * i..16 * i + 16]));
    PatchedTwice(old(output[..]), 16 * i, old(input[16 * i..16 * i + 16]),
                 InvCipher(old(input[16 * i..16 * i + 16]), e.roundKey[..]));
  }

  // ---------- decryption in place ----------

  lemma XorCommutes(a: Block, b: Block)
    ensures Xor(a, b) == Xor(b, a)
  {
    forall k: nat | k < 16 ensures a[k] ^ b[k] == b[k] ^ a[k] {}
  }

  lemma XorCancel(a: Block, b: Block, x: Block)
    requires Xor(x, a) == Xor(x, b)
    ensures a == b
  {
    hide Xor;
    XorCommutes(x, a); XorCommutes(x, b);
    XorInverse(a, x); XorInverse(b, x);
  }

  lemma Behind(p: seq<bv8>, b: Block, n: nat)
    requires |p| == 16 * n
    ensures (p + b)[..16 * n] == p && BlockAt(p + b, n) == b
    ensures forall i | 0 <= i < n :: BlockAt(p + b, i) == BlockAt(p, i)
  {
  }

  lemma DecryptNext(c: seq<bv8>, w: RoundKeys, iv: Block, n: nat)
    requires 16 * n + 16 <= |c|
    ensures var x := InvCipher(BlockAt(c, n), w);
            && CbcDecrypted(c, w, iv, n + 1) == CbcDecrypted(c, w, iv, n) + Xor(x, Link(c, w, iv, n, false))
            && CbcInPlace(c, w, iv, n + 1) == CbcInPlace(c, w, iv, n) + Xor(x, Link(c, w, iv, n, true))
  {
    hide InvCipher, Xor, Chain, BlockAt;
  }

  /** Every block before the last of n decrypts to itself. */
  ghost predicate Selfsame(c: seq<bv8>, p: seq<bv8>, n: nat)
    requires 16 * n <= |c| && |p| == 16 * n
  {
    forall i | 0 <= i < n - 1 :: BlockAt(p, i) == BlockAt(c, i)
  }

  lemma SelfsameNext(c: seq<bv8>, p: seq<bv8>, b: Block, n: nat)
    requires 16 * n + 16 <= |c| && |p| == 16 * n
    ensures Selfsame(c, p + b, n + 1) <==> Selfsame(c, p, n) && (n > 0 ==> BlockAt(p, n - 1) == BlockAt(c, n - 1))
  {
    Behind(p, b, n);
    hide BlockAt;
  }

  /** Decryption in place gives the right bytes exactly when every block but the last decrypts to itself, so always for
      a single block. */
  lemma {:induction false} InPlaceExactly(c: seq<bv8>, w: RoundKeys, iv: Block, n: nat)
    requires 16 * n <= |c|
    ensures CbcInPlace(c, w, iv, n) == CbcDecrypted(c, w, iv, n) <==> Selfsame(c, CbcDecrypted(c, w, iv, n), n)
  {
    hide InvCipher, Xor, CbcDecrypted, CbcInPlace, Selfsame, BlockAt;
    if n == 0 {
      NothingDecrypted(c, w, iv);
    } else {
      var (p, q) := (CbcDecrypted(c, w, iv, n - 1), CbcInPlace(c, w, iv, n - 1));
      var (k, l) := (Link(c, w, iv, n - 1, false), Link(c, w, iv, n - 1, true));
      var x := InvCipher(BlockAt(c, n - 1), w);
      InPlaceExactly(c, w, iv, n - 1);
      DecryptNext(c, w, iv, n - 1);
      Behind(p, Xor(x, k), n - 1);
      Behind(q, Xor(x, l), n - 1);
      SelfsameNext(c, p, Xor(x, k), n - 1);
      if Xor(x, k) == Xor(x, l) { XorCancel(k, l, x); }
    }
  }

  lemma NothingDecrypted(c: seq<bv8>, w: RoundKeys, iv: Block)
    ensures CbcInPlace(c, w, iv, 0) == CbcDecrypted(c, w, iv, 0) == [] && Selfsame(c, [], 0)
  {
  }
}
