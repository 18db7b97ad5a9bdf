/** Encoder and decoder together. */
module Codec {
  import opened Prelude
  import opened IStreams
  import opened OStreams
  import opened Schema
  import opened Wire
  import opened RoundTrip
  import opened Ledger
  import opened Descriptors
  import Encoder
  import Decoder

  /** A message written into a buffer that is large enough and read back from it is the message again, in blocks
      newly allocated; the only thing that can go wrong is that the allocator refuses. */
  method EncodeDecode(env: Env, k: nat, m: Msg, buf: array<byte>, heap: Heap) returns (ok: bool, r: Msg)
    requires EnvOk(env) && Indexable(env) && k < |env| && MsgOk(env, k, m) && Encodable(env, k, m)
    requires |EncMsg(env, k, m)| <= buf.Length < U32 && heap.Valid()
    modifies buf, heap
    ensures heap.Valid() && heap.live == old(heap.live) + Ids(r)
    ensures ok ==> Erase(r) == Norm(env, k, m)
    ensures !ok ==> heap.refusals > old(heap.refusals) && Ids(r) == multiset{}
  {
    hide MsgOk, Encodable, EncMsg, DecMsg, Norm, Erase, Ids, Default;
    ghost var bs := EncMsg(env, k, m);
    var output := new OStream.FromBuffer(buf, buf.Length);
    var written := Encoder.Encode(env, k, m, output);
    assert written && buf[..output.written] == bs;
    var input := new IStream.FromBuffer(buf[..output.written]);
    DecodeEncode(env, k, m);
    ok, r := Decoder.Decode(env, k, input, heap);
  }
}
