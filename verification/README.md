# Models and proofs for the charger firmware's libraries

This project models the self-contained algorithms of the firmware and proves what they are for. Each component is one or a
few modules; methods and classes follow the imperative source, functions say what they compute, lemmas say what that means.

| component | files |
|---|---|
| nanopb codec | Prelude, Varint, Pieces, OStream, IStream, Schema, Wire, Layout, Giants, RoundTrip, WireValues, KnownMessages, DecodeLaws, FieldIter, Descriptors, Encoder, Ledger, Decoder, Codec, SlotDetail |
| kfifo | Kfifo (sequential), KfifoConcurrent and KfifoOverrun (one writer, one reader, interleaved) |
| AES-128 | AesTables, AesSpec, AesField, AesKnown, Aes, AesModes |
| MD5 | Md5Transform, Md5, Md5Known |
| bit-banged UART | Uart |
| intrusive list | DoublyList |
| base64, CRC-32 | Base64, Crc32 |

`dafny verify dfyconfig.toml` checks everything.

## How the components are modelled

What a component computes is stated by functions that its methods are proved against. So that these functions do not rest on
their own inverses alone, each is also tied to the standard it implements: by laws on the values, bits and bytes it yields,
and by the known answers that the standard prints.

**nanopb.** A descriptor set is data: each descriptor is a tag-sorted sequence of fields, a field is a static scalar, a
pointer string, a static optional submessage, a pointer-repeated submessage, a pointer-repeated scalar or a static
scalar array. Static submessages refer to earlier descriptors; pointer submessages may refer to any, themselves
included. `Wire` says in functions what is written and what reading does; streams and the field iterator are objects
whose methods are proved against those functions. The heap is a ledger of live blocks that may refuse any request; a
structure is a tree of slots, pointer slots carrying the identity of their block, and the ledger is balanced against the
blocks the structure owns. `size_t` has 32 bits and wraps explicitly in `pb_write` and in sizing. The configuration is
64-bit varints on, `PB_FIELD_32BIT` off, arrays packed, buffer streams, little-endian fast path, and `PB_ENABLE_MALLOC`
on: the macro is commented out at pb.h:14 although every schema with a string needs it. Shifts, masks and ors of the
packing and varint code are written as multiplication, division, remainder and sums of disjoint bits. Strings count up
to their first NUL and lie in a 32-bit address space; a bool member may hold any byte. The guard at pb_encode.c:744 has
no wrap test, unlike pb_encode.c:87, so a submessage of nearly 2^32 bytes can pass it; entries of an array that share
one string make such a message in 320 KiB (`Giants`). Every output stream therefore knows where the memory of its root
stream ends; a write past that end is an outcome of its own, and the run ends there. What is written is given as a
sequence of pieces, single writes and nested payloads (`Layout`), and `Pieces` says how far it gets, also when it fails,
which decides whether the check for a changed size fires. The heap counts the requests it refuses, so that a failure is
blamed on a refusal during the same call only. `Fits` is PB_FITS as written: the wide forms test the size offset after
its cast to a signed byte. Descriptors have fewer than 0x4000 fields, so that the 16-bit word index of the iterator does
not wrap.

**kfifo.** The size divides 2^32. The comment on `kfifo_alloc` promises to round up to a power of two, the code does
not. The mask by size - 1 is a remainder. The concurrent model takes one memory access at a time, under sequential
consistency. The macro `MIN` (ql_utils.h:9) evaluates its arguments twice, so each side may read the other's counter a
second time; the model keeps both evaluations, proves that the ring itself stays consistent, and says exactly which
requests a copy can exceed: those for at least what was available but for less than the whole ring, whatever the other
side is doing, as long as it can still move. A caller that asks for less than `kfifo_unused` or `kfifo_data_size` has
reported to it is safe. `kfifo_out_peek` evaluates its count once and takes part in the interleaving; the two reports
are single reads of the other side's counter.

**AES.** Bytes are 8-bit vectors, blocks and schedules sequences; the engine runs in place on the output buffer, one
engine for each of the two sets of statics. The vector pointer of CBC, kept from call to call, is an object of its own.
Table entries are matched by row and column.

**MD5.** Count and state words are numbers below 2^32, the 64 operations work on 32-bit vectors. `Holds(m)` says that a
context is the one of the message m; every operation is specified by it.

**UART.** Transmitter and receiver are values that a tick maps to values; the class is proved to take exactly those
steps. The GPIO level is a field on the sending and a parameter on the receiving side. The comment on the receiver
speaks of sampling every half bit; the code starts both timers with the same period, and so does the model.

**List.** A ring is described by its head and the sequence of its entries; methods take that sequence as a ghost
argument.

**Base64, CRC-32.** Characters are ASCII codes. The checksum is specified by division, bit by bit.

## Model

| member | source | states |
|---|---|---|
| Varint.Minimal64 | ql_application/App_XD/nanopb/pb_encode.c:572-604 | The base-128 form of a 64-bit value takes at most ten bytes, and of a 32-bit value at most five |
| Varint.MinimalShortest | ql_application/App_XD/nanopb/pb_encode.c:572-604 | No complete varint of the same value is shorter than the emitted form |
| Varint.MinimalComplete | ql_application/App_XD/nanopb/pb_encode.c:572-604 | The emitted form is one complete varint and stands for the value |
| WireValues.MinimalGroups | ql_application/App_XD/nanopb/pb_encode.c:572-604 | Byte k of a minimal varint holds bits 7k to 7k + 6, and every byte but the last carries the continuation bit |
| WireValues.Read64Exactly | ql_application/App_XD/nanopb/pb_decode.c:242-262 | The long reader takes every complete varint of at most ten bytes whose tenth is 0 or 1, with the value of its groups, and no other |
| Varint.Read64Minimal | ql_application/App_XD/nanopb/pb_decode.c:242-262 | pb_decode_varint inverts pb_encode_varint for every 64-bit value and leaves what follows |
| Varint.Read64Bound | ql_application/App_XD/nanopb/pb_decode.c:242-262 | What the long reader accepts has at most ten bytes, a value below 2^64 and leaves a suffix of its input |
| Varint.ShortRefinesLong | ql_application/App_XD/nanopb/pb_decode.c:170-240 | Whenever the short reader succeeds the long one succeeds, consumes the same bytes and agrees modulo 2^32 |
| Varint.ShortAcceptsSmall | ql_application/App_XD/nanopb/pb_decode.c:170-240 | The short reader accepts every varint, padded or not, whose 64-bit value is below 2^32 |
| Varint.ShortAcceptsNegative | ql_application/App_XD/nanopb/pb_decode.c:170-240 | The short reader accepts the canonical ten bytes of every sign-extended negative int32 |
| Varint.ShortAcceptsMore | ql_application/App_XD/nanopb/pb_decode.c:216-223 | A fifth byte of 0x78 to 0x7F ends the varint for both readers; the long value is the short one plus 7 * 2^32, so no sign extension, and the short reader cuts it |
| Varint.ShortAcceptsExactly | ql_application/App_XD/nanopb/pb_decode.c:199-229 | What the short reader accepts stands for an unsigned 32-bit value or a sign-extended negative int32 exactly when its high bits are all zero, or all ones in ten bytes: a condition on the bytes |
| OStreams.OStream.BufWrite | ql_application/App_XD/nanopb/pb_encode.c:52-60 | Exactly the bytes given land at the cursor, the rest of memory is unchanged, the cursor moves past them |
| OStreams.OStream.Write | ql_application/App_XD/nanopb/pb_encode.c:83-104 | A buffer stream writes all or nothing as far as max_size and refuses exactly when the bytes do not fit; a write past the end of the root stream's memory counts as an overrun; a sizing stream counts modulo 2^32 |
| OStreams.VarintBytes | ql_application/App_XD/nanopb/pb_encode.c:572-604 | The two loops over two 32-bit words produce the minimal form of the 64-bit value |
| OStreams.OStream.EncodeVarint32 | ql_application/App_XD/nanopb/pb_encode.c:572-604 | The minimal form of low + 2^32 * high is emitted |
| OStreams.OStream.EncodeVarint | ql_application/App_XD/nanopb/pb_encode.c:606-622 | The minimal form of the value is emitted, by the short cut or the long way |
| IStreams.IStream.Read | ql_application/App_XD/nanopb/pb_decode.c:81-120 | All of the bytes are delivered or none is consumed; cursor + bytes_left stays put |
| IStreams.IStream.ReadByte | ql_application/App_XD/nanopb/pb_decode.c:124-140 | One byte is delivered unless the stream is at its end; cursor + bytes_left stays put |
| IStreams.IStream.DecodeVarint | ql_application/App_XD/nanopb/pb_decode.c:242-262 | Succeeds exactly on the varints of the 64-bit reader, with its value and its rest of the stream |
| IStreams.IStream.DecodeVarint32Eof | ql_application/App_XD/nanopb/pb_decode.c:170-234 | Succeeds exactly on the varints of the 32-bit reader, with its value and rest; eof exactly on an empty stream |
| IStreams.ShortGrows | ql_application/App_XD/nanopb/pb_decode.c:199-229 | One more byte keeps a readable prefix readable exactly under the source's overflow test, and adds that byte's bits to the result |
| IStreams.GroupAdded | ql_application/App_XD/nanopb/pb_decode.c:242-262 | Or-ing seven bits in at the next position gives the value of the longer prefix, without loss at 64 bits |
| IStreams.IStream.SkipVarint | ql_application/App_XD/nanopb/pb_decode.c:265-274 | Skips to behind the first byte below 0x80, and fails exactly when there is none |
| IStreams.IStream.SkipString | ql_application/App_XD/nanopb/pb_decode.c:276-288 | Skips a length and that many bytes, and fails exactly when they are not there |
| IStreams.IStream.Skip | ql_application/App_XD/nanopb/pb_decode.c:307-317 | Skips one field of wire type 0, 1, 2 or 5 and refuses every other wire type |
| WireValues.SkipsVarint | ql_application/App_XD/nanopb/pb_decode.c:265-274 | Skipping steps over a whole varint of any length |
| WireValues.SkipsNumber | ql_application/App_XD/nanopb/pb_decode.c:307-317 | Skipping by its wire type steps over exactly what was written of a number of any type |
| WireValues.SkipsCounted | ql_application/App_XD/nanopb/pb_decode.c:276-288 | And over exactly what was written of a string or submessage |
| WireValues.SkipsNothingElse | ql_application/App_XD/nanopb/pb_decode.c:307-317 | No wire type but 0, 1, 2 and 5 can be skipped |
| IStreams.IStream.DecodeTag | ql_application/App_XD/nanopb/pb_decode.c:290-305 | Splits a 32-bit varint into field number and wire type; eof exactly on an empty stream |
| IStreams.IStream.MakeSubstream | ql_application/App_XD/nanopb/pb_decode.c:361-374 | The substream is the delimited payload, and cursor + both counts is the parent's old end |
| IStreams.IStream.CloseSubstream | ql_application/App_XD/nanopb/pb_decode.c:376-389 | Whatever the substream read, the parent continues exactly behind the payload |
| FieldIters.UnpackPack | ql_application/App_XD/nanopb/pb.h:761-799 | A field packed by any PB_FIELDINFO width whose PB_FITS conditions hold comes back as it was exactly when its size offset is in range of a signed byte for the wide forms, and its array size is 1 for the one-word form; otherwise with exactly those cut |
| FieldIters.PackedLayout | ql_application/App_XD/nanopb/pb.h:741-779 | The packed words have the bit layout that pb.h documents for each width |
| FieldIters.SizeOffsetCut | ql_application/App_XD/nanopb/pb.h:769-799 | A size offset of 300 passes PB_FITS after the cast and unpacks to 44 |
| FieldIters.CurrentWord | ql_application/App_XD/nanopb/pb_common.c:8-120 | At the offset of field i the packed descriptor yields that field, its length and its tag bits, and is not at its end |
| FieldIters.NextPosition | ql_application/App_XD/nanopb/pb_common.c:122-154 | The prefix sums grow by length, required flag and submessage flag of the field and stay below 2^16 |
| FieldIters.FieldIter.Load | ql_application/App_XD/nanopb/pb_common.c:8-120 | The current field equals the one packed at the iterator's position; it fails exactly on an empty descriptor |
| FieldIters.FieldIter.Advance | ql_application/App_XD/nanopb/pb_common.c:122-154 | The next index or back to 0; field_info, required and submessage indexes equal the prefix sums there |
| FieldIters.FieldIter.Next | ql_application/App_XD/nanopb/pb_common.c:188-193 | False exactly when the iterator wraps to the first field |
| FieldIters.FieldIter.Find | ql_application/App_XD/nanopb/pb_common.c:195-244 | From any position and for any tag it finds exactly the tags of non-extension fields, or the one it stands on (0 in a descriptor without fields), within field_count advances, and is back at its start on failure |
| RoundTrip.TagRoundTrip | ql_application/App_XD/nanopb/pb_encode.c:674-678 | A written tag is read back as its field number and wire type |
| WireValues.TagValue | ql_application/App_XD/nanopb/pb_encode.c:674-678 | A tag is the varint of eight times the field number plus the wire type |
| WireValues.WireTypes | ql_application/App_XD/nanopb/pb_encode.c:680-713 | The wire types are those of the standard: 5 and 1 for fixed width, else 0 |
| RoundTrip.LeRoundTrip | ql_application/App_XD/nanopb/pb_encode.c:636-672 | Little-endian words of any width are read back |
| WireValues.FixedValue | ql_application/App_XD/nanopb/pb_encode.c:636-672 | A fixed-width number has four or eight bytes, byte i being v / 256^i modulo 256 |
| WireValues.NumberValue | ql_application/App_XD/nanopb/pb_encode.c:775-828 | The emitted varint stands for 0 or 1 for a bool, for v modulo 2^64 for unsigned and signed members, and for 2v or -2v - 1 for zigzag |
| WireValues.BoolElement | ql_application/App_XD/nanopb/pb_encode.c:775-780 | Both ways of sending a bool give the byte 0 or 1 |
| WireValues.MemberRange | ql_application/App_XD/nanopb/pb.h:741-779 | A member of n bytes holds the unsigned or two's complement numbers of n bytes |
| WireValues.TextEnds | ql_application/App_XD/nanopb/pb_encode.c:876-927 | The characters sent of a string are those before its first NUL |
| RoundTrip.ScalarRoundTrip | ql_application/App_XD/nanopb/pb_encode.c:782-853 | Every value of a scalar member survives writing and reading: zigzag, sign extension and the clamping to the member's width included |
| WireValues.UnsignedFits | ql_application/App_XD/nanopb/pb_decode.c:1424-1450 | An unsigned member refuses exactly the values that do not fit it |
| WireValues.ZigZagFits | ql_application/App_XD/nanopb/pb_decode.c:1456-1490 | A zigzag member refuses exactly the values that do not fit it |
| WireValues.SignedFits | ql_application/App_XD/nanopb/pb_decode.c:1462-1490 | A signed member below 64 bits first loses all but the low 32 bits, so that a 32-bit one refuses nothing, and then refuses exactly what does not fit it |
| WireValues.BoolRead | ql_application/App_XD/nanopb/pb_decode.c:1418-1421 | A bool is true for every varint the short reader takes whose low 32 bits are not zero |
| RoundTrip.PackedRoundTrip | ql_application/App_XD/nanopb/pb_encode.c:143-195 | A packed array of scalars is read back element by element within its capacity |
| RoundTrip.ItemsRoundTrip | ql_application/App_XD/nanopb/pb_encode.c:196-238 | Pointer-repeated submessages, one record each, are appended in order |
| RoundTrip.SlotRoundTrip | ql_application/App_XD/nanopb/pb_encode.c:417-471 | Any field's records put exactly that field's normalised value into a structure at its default |
| RoundTrip.FieldsRoundTrip | ql_application/App_XD/nanopb/pb_encode.c:511-533 | From a structure that holds the first fields and defaults elsewhere, decoding the records of the other fields gives the whole message |
| RoundTrip.DecodeEncode | ql_application/App_XD/nanopb/pb_decode.c:989-1151 | Decoding what pb_encode writes for any well-formed message of any descriptor set uses all bytes and returns the message, absent submessages at their defaults |
| KnownMessages.ComesBack | ql_application/App_XD/nanopb/pb_decode.c:989-1151 | A message whose bools are 0 or 1, whose strings end at their first NUL and whose absent parts are at their defaults comes back as it was, only at other addresses |
| KnownMessages.SampleRoundTrip | ql_application/App_XD/nanopb/pb_encode.c:511-533 | A message with a field of every kind is sent as the very bytes that the standard prescribes, in field order, and they are read as that message |
| KnownMessages.DefaultIsSilent | ql_application/App_XD/nanopb/pb_encode.c:417-471 | A structure at its defaults is sent as no bytes at all, for every descriptor |
| KnownMessages.ArraysDecide | ql_application/App_XD/nanopb/pb_encode.c:108-141 | A message of numbers, strings and arrays can be sent exactly if no static array claims more than its size |
| DecodeLaws.Merge | ql_application/App_XD/nanopb/pb_decode.c:989-1111 | If a decodes, decoding a ++ b is decoding a and then b without initialising, also when that fails |
| DecodeLaws.Swap | ql_application/App_XD/nanopb/pb_decode.c:1015-1111 | Two adjacent records of different fields may be swapped |
| DecodeLaws.RecordLocal | ql_application/App_XD/nanopb/pb_decode.c:1015-1111 | A record reads and writes only the slot of its own field |
| DecodeLaws.LastWins | ql_application/App_XD/nanopb/pb_decode.c:395-464 | Of two records of a singular scalar only the last matters |
| DecodeLaws.SubmessagesMerge | ql_application/App_XD/nanopb/pb_decode.c:1586-1636 | A static submessage sent in two records is the same as one record holding both payloads exactly when the first payload is well formed alone or the joined one fails too; a first payload that fails makes the two records fail |
| DecodeLaws.CutPayload | ql_application/App_XD/nanopb/pb_decode.c:1586-1636 | A payload cut inside a record: sent in two records it is refused, in one it is read |
| DecodeLaws.RepeatedAppend | ql_application/App_XD/nanopb/pb_decode.c:664-743 | Decoding only ever appends to repeated fields, those inside static submessages included |
| DecodeLaws.UnknownIgnored | ql_application/App_XD/nanopb/pb_decode.c:1041-1076 | A number of any type, a varint of any length, a string or a submessage, written as the standard writes it under a field number the descriptor does not have, changes nothing at any field boundary |
| DecodeLaws.UnknownRecordIgnored | ql_application/App_XD/nanopb/pb_decode.c:1041-1076 | So does whatever the decoder takes for one record of an unknown field |
| DecodeLaws.CutRecordRefused | ql_application/App_XD/nanopb/pb_decode.c:1015-1111 | A record that is cut anywhere is refused |
| DecodeLaws.ZeroTagRefused | ql_application/App_XD/nanopb/pb_decode.c:1028-1040 | Field number 0 is refused at every field boundary |
| DecodeLaws.WrongWireTypeRefused | ql_application/App_XD/nanopb/pb_decode.c:395-520 | A field that comes with a wire type other than its own, or for arrays of numbers that of a packed run, is refused |
| DecodeLaws.ChunksAppend | ql_application/App_XD/nanopb/pb_decode.c:478-519 | Any mix of packed chunks and single records appends exactly their values if there is room, and fails if there is not |
| DecodeLaws.WireFormIrrelevant | ql_application/App_XD/nanopb/pb_decode.c:664-743 | Two mixes with the same values decode alike whatever follows, with or without room |
| Pieces.FitsExactly | ql_application/App_XD/nanopb/pb_encode.c:83-104 | A sequence of writes and nested payloads arrives whole exactly when it has no failing piece and fits both the count and the memory |
| Pieces.NoOverrun | ql_application/App_XD/nanopb/pb_encode.c:723-771 | While count and total stay below 2^32 nothing is written past the memory |
| Pieces.OverrunExactly | ql_application/App_XD/nanopb/pb_encode.c:744-749 | With payloads below 2^32 each, memory is overrun exactly when a submessage is reached whose size and the bytes before it add up to at least 2^32 and at most 2^32 + max_size |
| Pieces.GiantStops | ql_application/App_XD/nanopb/pb_encode.c:755-768 | A payload of 2^32 bytes or more never arrives whole |
| Pieces.OnlyGiantsChange | ql_application/App_XD/nanopb/pb_encode.c:766-768 | The exit for a changed size is never taken for a smaller payload |
| Pieces.ReachedCut | ql_application/App_XD/nanopb/pb_encode.c:759 | A substream that is refused a write has stopped exactly at its limit if and only if the payload can be cut there between two writes |
| Pieces.SizeChangesExactly | ql_application/App_XD/nanopb/pb_encode.c:766-768 | Where the guard does not wrap and the payload's own submessages are below 2^32 bytes, the exit for a changed size is taken exactly when the payload has 2^32 bytes or more, nothing in it wraps past the guard, and no cut between two writes falls on the announced size |
| Layout.MsgLayout | ql_application/App_XD/nanopb/pb_encode.c:511-533 | The writes of a message make up its wire form, and none gives up exactly when the message is encodable |
| Layout.NumsLayout | ql_application/App_XD/nanopb/pb_encode.c:179-194 | The writes of array elements make up their wire forms |
| Giants.EntriesLay | ql_application/App_XD/nanopb/pb_encode.c:196-238 | Entries that share one string of 65536 characters add 65544 bytes each |
| Giants.ChangeMessage | ql_application/App_XD/nanopb/pb_encode.c:766-768 | 65529 such entries make a payload for which the exit for a changed size is taken in every stream with 65480 bytes left: the substream stops after 4 bytes |
| Giants.ChangeHappens | ql_application/App_XD/nanopb/pb_encode.c:766-768 | So there is a well-formed message of some 320 KiB that takes the exit |
| Giants.OverrunMessage | ql_application/App_XD/nanopb/pb_encode.c:744-749 | 65528 such entries behind a title of 56 characters overrun every buffer that takes the 64 bytes before them |
| Giants.OverrunHappens | ql_application/App_XD/nanopb/pb_encode.c:744-749 | For every such size of buffer there is a well-formed message of some 320 KiB that overruns it |
| Encoder.EncodeSVarint | ql_application/App_XD/nanopb/pb_encode.c:624-634 | The zigzag form of every 64-bit value is emitted |
| Encoder.EncVarint | ql_application/App_XD/nanopb/pb_encode.c:782-828 | A varint member of any width, signedness and bool representation is emitted in its wire form |
| Encoder.EncFixed | ql_application/App_XD/nanopb/pb_encode.c:830-853 | A fixed-width member is emitted in its four or eight bytes |
| Encoder.EncodeTag | ql_application/App_XD/nanopb/pb_encode.c:674-678 | The tag is emitted as one varint |
| Encoder.EncodeString | ql_application/App_XD/nanopb/pb_encode.c:715-721 | Length and bytes are emitted |
| Encoder.EncString | ql_application/App_XD/nanopb/pb_encode.c:876-927 | The characters up to the first NUL are emitted with their length |
| Encoder.EncodePacked | ql_application/App_XD/nanopb/pb_encode.c:143-195 | A packed record whose announced length, found by a sizing pass or by multiplication, is that of its elements |
| Encoder.PackedSize | ql_application/App_XD/nanopb/pb_encode.c:150-171 | The announced length equals the length of the elements' wire forms |
| Encoder.EncodeElements | ql_application/App_XD/nanopb/pb_encode.c:179-194 | The elements are emitted in order |
| Encoder.EncodeSubmessage | ql_application/App_XD/nanopb/pb_encode.c:723-771 | Length and payload are emitted; the exit for a changed size is taken exactly when length and payload pass the checks before and the substream, refused a write, has stopped at another count |
| Encoder.EncodeItems | ql_application/App_XD/nanopb/pb_encode.c:196-238 | One delimited record per element, in order, stopping at the first that fails |
| Encoder.EncodeField | ql_application/App_XD/nanopb/pb_encode.c:417-471 | Absent, zero, NULL and empty fields emit nothing; every other field emits its wire form; a count above the array size fails |
| Encoder.EncodeFields | ql_application/App_XD/nanopb/pb_encode.c:511-533 | The loop of pb_encode makes the writes of the message's layout, in order, up to the first that fails |
| Encoder.Meaning | ql_application/App_XD/nanopb/pb_encode.c:511-533 | What those writes come to: exactly the wire form, exactly when the message is encodable and fits |
| Encoder.Encode | ql_application/App_XD/nanopb/pb_encode.c:511-533 | pb_encode emits exactly the wire form and succeeds exactly when the message is encodable and fits; below 2^32 bytes in all nothing is written past max_size; beyond that, as long as each submessage is below 2^32 bytes, exactly when one wraps at the guard |
| Encoder.GetEncodedSize | ql_application/App_XD/nanopb/pb_encode.c:556-565 | The sizing stream's count is the length of the wire form modulo 2^32 |
| Ledger.Heap.Realloc | ql_application/App_XD/nanopb/pb_decode.c:561-605 | realloc as the allocator's contract: a fresh block replaces the old one, or a refusal is counted and changes nothing else |
| Ledger.Heap.Free | ql_application/App_XD/nanopb/pb_decode.c:1228-1317 | Only a live block can be freed, and it alone leaves the ledger; freeing NULL is harmless |
| Ledger.IdsFromUpdate | ql_application/App_XD/nanopb/pb_decode.c:623-749 | Replacing one field changes the blocks a structure owns by exactly that field's blocks |
| Ledger.DefaultOwnsNothing | ql_application/App_XD/nanopb/pb_decode.c:868-987 | A structure at its defaults owns no block |
| Decoder.DecodeSVarint | ql_application/App_XD/nanopb/pb_decode.c:1355-1367 | Undoes zigzag on what the long varint reader accepts |
| Decoder.DecVarint | ql_application/App_XD/nanopb/pb_decode.c:1424-1494 | Reads and narrows exactly as the wire format's scalar reader says, refusing values that do not fit the member |
| Decoder.DecString | ql_application/App_XD/nanopb/pb_decode.c:1536-1584 | The payload becomes a NUL-terminated block; every failure leaves the old block accounted for |
| Decoder.AllocateField | ql_application/App_XD/nanopb/pb_decode.c:561-605 | Refuses exactly zero sizes, products that would wrap size_t and what the allocator refuses during the call |
| Decoder.DecPackedStatic | ql_application/App_XD/nanopb/pb_decode.c:479-508 | A packed chunk appends to a static array within its capacity |
| Decoder.DecPackedPtr | ql_application/App_XD/nanopb/pb_decode.c:664-727 | A packed chunk appends to an allocated array that grows as needed; nothing leaks when it fails |
| Decoder.DecElements | ql_application/App_XD/nanopb/pb_decode.c:677-722 | The growing loop: each turn shrinks the substream and keeps the block count balanced |
| Decoder.DecAppendMessage | ql_application/App_XD/nanopb/pb_decode.c:728-743 | A submessage is decoded into a zeroed new element and appended |
| Decoder.DecSubmessage | ql_application/App_XD/nanopb/pb_decode.c:1586-1636 | A submessage is decoded in its substream and merges into what the structure holds |
| Decoder.DecodeField | ql_application/App_XD/nanopb/pb_decode.c:797-822 | One record acts on its field as the wire format says, with every block accounted for |
| Decoder.DecodeInner | ql_application/App_XD/nanopb/pb_decode.c:989-1151 | The loop over any bytes ends, agrees with the wire format unless an allocation is refused during the call, and never loses a block |
| Decoder.Release | ql_application/App_XD/nanopb/pb_decode.c:1319-1332 | Frees each block of the structure once, at any depth, and leaves NULL pointers and zero counts |
| Decoder.ReleaseField | ql_application/App_XD/nanopb/pb_decode.c:1228-1317 | Frees the blocks of one field, elements before their array |
| Decoder.ReleaseItems | ql_application/App_XD/nanopb/pb_decode.c:1281-1288 | Frees the blocks of each element of a repeated submessage |
| Decoder.FreedOwnsNothing | ql_application/App_XD/nanopb/pb_decode.c:1319-1332 | A released structure owns no block |
| Decoder.Decode | ql_application/App_XD/nanopb/pb_decode.c:1181-1196 | Succeeds exactly on what the wire format accepts unless an allocation is refused during the call; success owns exactly the new blocks, failure leaves none live |
| Decoder.DecodeNoInit | ql_application/App_XD/nanopb/pb_decode.c:1153-1179 | The same into a structure that already holds a message, whose blocks are kept, reused or freed |
| Decoder.DecodeAndRelease | ql_application/App_XD/nanopb/pb_decode.c:1181-1332 | Decoding any bytes and releasing leaves the heap as it was |
| Codec.EncodeDecode | ql_application/App_XD/nanopb/pb_encode.c:511-533 | Encoder and decoder methods together return the message, in new blocks, unless the allocator refuses during the call |
| SlotDetail.WithinDeclaredSize | ql_application/App_XD/nanopb/tsl_pb.h:822 | Every slotDetail whose state is in its enum encodes in at most slotDetail_size bytes |
| SlotDetail.DeclaredSizeAttained | ql_application/App_XD/nanopb/tsl_pb.h:822 | One slotDetail encodes in exactly slotDetail_size bytes |
| Kfifos.Kfifo.Put | ql_components/common/fifo.h:100-121 | Appends as much of the source as there is room for, also across the end of the ring and the wrap of the counters |
| Kfifos.Kfifo.Get | ql_components/common/fifo.h:134-154 | Removes and delivers the oldest bytes, as many as asked for and available |
| Kfifos.Kfifo.OutPeek | ql_components/common/fifo.h:184-196 | Delivers the oldest bytes and removes nothing |
| Kfifos.Kfifo.DataSize | ql_components/common/fifo.h:156-159 | in - out modulo 2^32 is the number of bytes stored |
| Kfifos.Kfifo.Unused | ql_components/common/fifo.h:161-164 | The free space is what is left of the ring |
| Kfifos.SplicedIn | ql_components/common/fifo.h:100-121 | Two copies split at the end of the ring put the bytes where the next reads find them and overwrite no unread byte |
| KfifoConcurrent.StepKeepsInv | ql_components/api/ql_fifo.h:93-150 | Every memory access of either side keeps counters, stored bytes and copies in progress consistent |
| KfifoConcurrent.Safety | ql_components/api/ql_fifo.h:93-150 | In every interleaved run of put, get and peek the fill level stays within the ring, the bytes got are a prefix of those put, and no slot is read while being written |
| KfifoConcurrent.CountsAreExact | ql_components/api/ql_fifo.h:93-160 | Each evaluated count is the true free space or fill level, and the histories grow by exactly what is published |
| KfifoConcurrent.CountBetweenEvaluations | ql_components/api/ql_fifo.h:101 | Between the two evaluations of MIN the count changes by exactly what the other side publishes |
| KfifoConcurrent.PeekedIsGotLater | ql_components/api/ql_fifo.h:180-190 | What a peek has delivered is what gets deliver later, whatever is put or got in between |
| KfifoConcurrent.ReportsStay | ql_components/api/ql_fifo.h:152-160 | What kfifo_data_size and kfifo_unused report stays a lower bound until the caller itself takes bytes out or puts bytes in |
| KfifoOverrun.OverrunNeedsPublish | ql_components/api/ql_utils.h:9 | A put runs past its source only if a get is published after its first evaluation, and a get past its destination only if a put is |
| KfifoOverrun.LessThanReported | ql_components/api/ql_fifo.h:152-160 | A request for less than kfifo_data_size or kfifo_unused reported before cannot be overrun |
| KfifoOverrun.PutMoves | ql_components/api/ql_fifo.h:93-119 | A put that ends without an overrun has moved a prefix of its source: all of it if that is less than was free when it began, else at least as much as was free |
| KfifoOverrun.GetMoves | ql_components/api/ql_fifo.h:127-150 | A get that ends without an overrun has taken out as many bytes as asked for if that is less than was stored when it began, else at least as many as were stored |
| KfifoOverrun.PeekPicks | ql_components/api/ql_fifo.h:180-190 | A peek is for as many bytes as asked for and stored when it began, and picks up the oldest ones |
| KfifoOverrun.PutOverrunCondition | ql_components/api/ql_fifo.h:96-117 | From any consistent state, whatever a reader that can still move is doing, a put can run past its source exactly when it asks for at least the free space but for less than the whole ring |
| KfifoOverrun.GetOverrunCondition | ql_components/api/ql_fifo.h:130-150 | From any consistent state, whatever a writer that can still move is doing, a get can run past its destination exactly when it asks for at least what is stored but for less than the whole ring |
| KfifoOverrun.OverrunHappens | ql_components/api/ql_fifo.h:130-150 | A get of one byte from the empty ring of two can be overrun |
| KfifoOverrun.Drain | ql_components/api/ql_fifo.h:130-150 | From any consistent state a reader that can still move can finish what it is doing and empty the ring |
| KfifoOverrun.Fill | ql_components/api/ql_fifo.h:96-117 | From any consistent state a writer that can still move can finish what it is doing and fill the ring |
| AesTables.BoxInverse | ql_application/App_XD/secrypto/app_security_aes.c:53-89 | rsbox undoes sbox on every byte |
| AesField.BoxIsInverse | ql_application/App_XD/secrypto/app_security_aes.c:53-70 | Every entry of sbox is the affine image of the inverse in GF(2^8) (FIPS 197, section 5.1.1) |
| AesSpec.ShiftRowsByIndex | ql_application/App_XD/secrypto/app_security_aes.c:304-330 | Row j of column i comes from column i + j modulo 4 (FIPS 197, section 5.1.2) |
| AesSpec.MixedIsProduct | ql_application/App_XD/secrypto/app_security_aes.c:332-350 | The xtime form of a mixed byte is the matrix product 2, 3, 1, 1 of FIPS 197, section 5.1.3 |
| AesSpec.MultiplyLinear | ql_application/App_XD/secrypto/app_security_aes.c:364-370 | Multiplication by each coefficient of InvMixColumns is linear over GF(2) |
| AesSpec.MatrixProduct | ql_application/App_XD/secrypto/app_security_aes.c:376-393 | InvMixColumns after MixColumns has ones on the diagonal and zeros elsewhere |
| AesSpec.ColumnInverse | ql_application/App_XD/secrypto/app_security_aes.c:338-393 | InvMixColumns undoes MixColumns on every column |
| AesSpec.RoundsMeet | ql_application/App_XD/secrypto/app_security_aes.c:439-487 | Round by round the inverse cipher passes through the states of the cipher |
| AesSpec.CipherInverse | ql_application/App_XD/secrypto/app_security_aes.c:439-487 | InvCipher undoes Cipher for every block and every schedule |
| AesSpec.ScheduleIsTheSchedule | ql_application/App_XD/secrypto/app_security_aes.c:127-190 | The expanded key is the one sequence that starts with the key and follows the recurrence of FIPS 197, section 5.2 |
| AesSpec.RconIsPower | ql_application/App_XD/secrypto/app_security_aes.c:94-110 | The round constants used are successive powers of x |
| AesSpec.KeyWords | ql_application/App_XD/secrypto/app_security_aes.c:194-204 | Round r uses words 4r to 4r + 3 of the schedule, one to a column |
| AesSpec.FirstKey | ql_application/App_XD/secrypto/app_security_aes.c:194-204 | The first round key is the key itself |
| AesKnown.ScheduleKnown | ql_application/App_XD/secrypto/app_security_aes.c:127-190 | The schedule of the key of FIPS 197, appendix C.1 |
| AesKnown.KnownAnswer | ql_application/App_XD/secrypto/app_security_aes.c:439-487 | The example of FIPS 197, appendix C.1, round by round: key, block and output, and back |
| Aes.Engine.KeyExpansion | ql_application/App_XD/secrypto/app_security_aes.c:127-190 | The round-key buffer holds the schedule of the key |
| Aes.Engine.AddRoundKey | ql_application/App_XD/secrypto/app_security_aes.c:194-204 | The round's key is added to the state in place, the bytes around it unchanged |
| Aes.Engine.SubBytes | ql_application/App_XD/secrypto/app_security_aes.c:289-299 | Each byte of the state is substituted in place |
| Aes.Engine.InvSubBytes | ql_application/App_XD/secrypto/app_security_aes.c:397-407 | Each byte of the state is substituted back in place |
| Aes.Engine.ShiftRows | ql_application/App_XD/secrypto/app_security_aes.c:304-330 | The swaps through temp rotate row j by j columns to the left |
| Aes.Engine.InvShiftRows | ql_application/App_XD/secrypto/app_security_aes.c:409-435 | The swaps through temp rotate row j by j columns to the right |
| Aes.Engine.MixColumns | ql_application/App_XD/secrypto/app_security_aes.c:338-350 | Each column is mixed in place, the first byte being kept for the last product |
| Aes.Engine.InvMixColumns | ql_application/App_XD/secrypto/app_security_aes.c:376-393 | Each column is unmixed in place |
| Aes.Engine.Cipher | ql_application/App_XD/secrypto/app_security_aes.c:439-462 | The state becomes the cipher block, the bytes around it unchanged |
| Aes.Engine.InvCipher | ql_application/App_XD/secrypto/app_security_aes.c:464-487 | The state becomes the plain block, the bytes around it unchanged |
| AesModes.AddPkcs | ql_application/App_XD/secrypto/app_security_aes.c:537-549 | The padding of RFC 5652, section 6.3, is written behind the message and the padded length returned |
| AesModes.PaddedIs | ql_application/App_XD/secrypto/app_security_aes.c:537-549 | The padded message is the message and one to sixteen bytes more, each saying how many, up to whole blocks |
| AesModes.EncryptBlock | ql_application/App_XD/secrypto/app_security_aes.c:506-517 | One block of the output becomes the cipher block of the input block, also in place |
| AesModes.DecryptBlock | ql_application/App_XD/secrypto/app_security_aes.c:519-531 | One block of the output becomes the plain block of the input block, also in place |
| AesModes.EcbEncrypt | ql_application/App_XD/secrypto/app_security_aes.c:551-564 | The output holds the encrypted padded message, also when it is the input buffer; the padded length is returned |
| AesModes.EcbDecrypt | ql_application/App_XD/secrypto/app_security_aes.c:581-592 | The whole blocks are decrypted and the byte at base_len - 1 is returned |
| AesModes.EcbInverse | ql_application/App_XD/secrypto/app_security_aes.c:551-592 | Decryption undoes encryption for any number of blocks |
| AesModes.EcbBlock | ql_application/App_XD/secrypto/app_security_aes.c:551-564 | Each block is enciphered by itself (SP 800-38A, section 6.1) |
| AesModes.EcbRoundTrip | ql_application/App_XD/secrypto/app_security_aes.c:537-592 | Decrypting an encrypted message returns its bytes, and the returned byte is the number of padding bytes, 16 - len % 16 |
| AesModes.CbcEncrypt | ql_application/App_XD/secrypto/app_security_aes.c:617-655 | The output is the chained cipher text, also in place; a length with a remainder takes a whole turn and one zero-filled block more; without a key or a vector the schedule or the chain of the last call goes on; a separate input is left with the chain values mixed in |
| AesModes.CbcDecrypt | ql_application/App_XD/secrypto/app_security_aes.c:657-693 | Into another buffer the output is the chained decryption of the input; in place each block is chained with the plain block before it; with the same remainder, key and vector cases |
| AesModes.InPlaceExactly | ql_application/App_XD/secrypto/app_security_aes.c:678-687 | Decryption in place gives the right bytes exactly when every block but the last decrypts to itself |
| AesModes.CbcInverse | ql_application/App_XD/secrypto/app_security_aes.c:617-693 | CBC decryption undoes CBC encryption for every schedule, vector and number of whole blocks |
| AesModes.CbcBlock | ql_application/App_XD/secrypto/app_security_aes.c:637-646 | Each block is mixed with the cipher block before it, the first with the vector, and enciphered (SP 800-38A, section 6.2) |
| AesModes.CbcContinues | ql_application/App_XD/secrypto/app_security_aes.c:632-646 | Encrypting in two calls, the second without a vector, is encrypting in one |
| Md5Transform.Round1 | ql_application/App_XD/secrypto/app_security_md5.c:98-113 | The sixteen unrolled operations are round 1 of RFC 1321, section 3.4, by word index, shift and sine table |
| Md5Transform.Round2 | ql_application/App_XD/secrypto/app_security_md5.c:115-130 | The sixteen unrolled operations are round 2 of RFC 1321, section 3.4, by word index, shift and sine table |
| Md5Transform.Round3 | ql_application/App_XD/secrypto/app_security_md5.c:132-147 | The sixteen unrolled operations are round 3 of RFC 1321, section 3.4, by word index, shift and sine table |
| Md5Transform.Round4 | ql_application/App_XD/secrypto/app_security_md5.c:149-164 | The sixteen unrolled operations are round 4 of RFC 1321, section 3.4, by word index, shift and sine table |
| Md5Transform.Choices | ql_application/App_XD/secrypto/app_security_md5.c:23-26 | Bit by bit F chooses by its first argument, G by its third, H is the parity and I is y xor (x or not z) (RFC 1321, section 3.4) |
| Md5Transform.RotationMoves | ql_application/App_XD/secrypto/app_security_md5.c:27 | Rotation takes bit k to bit k + n modulo 32 |
| Md5.InitIsCounting | ql_application/App_XD/secrypto/app_security_md5.c:52-61 | The initial words are the bytes of RFC 1321, section 3.3 |
| Md5Known.KnownDigest | ql_application/App_XD/secrypto/app_security_md5.c:89-205 | The digest of abc is the one RFC 1321, appendix A.5, prints, operation by operation |
| Md5.WordOfLittleEndian | ql_application/App_XD/secrypto/app_security_md5.c:62-87 | Decoding an encoded word gives it back |
| Md5.Encode | ql_application/App_XD/secrypto/app_security_md5.c:62-73 | The words are written in little-endian order |
| Md5.Decode | ql_application/App_XD/secrypto/app_security_md5.c:75-87 | The words of a block are read in little-endian order |
| Md5.ZerosIsLeast | ql_application/App_XD/secrypto/app_security_md5.c:194-205 | The padding is the shortest that brings the length to 56 modulo 64 |
| Md5.PaddedLength | ql_application/App_XD/secrypto/app_security_md5.c:194-205 | The padded message is a whole number of blocks |
| Md5.CountsAdd | ql_application/App_XD/secrypto/app_security_md5.c:176-179 | The two-word count with its carry test adds the length in bits modulo 2^64 |
| Md5.CountsAreBits | ql_application/App_XD/secrypto/app_security_md5.c:176-179 | Both count words together are the length in bits modulo 2^64 |
| Md5.Context.constructor | ql_application/App_XD/secrypto/app_security_md5.c:52-61 | The initial context is that of the empty message |
| Md5.Context.Transform | ql_application/App_XD/secrypto/app_security_md5.c:89-170 | The state takes up one block, wherever the block lies |
| Md5.Context.WholeBlocks | ql_application/App_XD/secrypto/app_security_md5.c:181-187 | The block in the buffer is completed and every further whole block is taken from the input; the loop leaves at its first index whose successor exceeds the length |
| Md5.LoopEndsExactly | ql_application/App_XD/secrypto/app_security_md5.c:181-187 | For input that completes the buffered block the block loop ends exactly below a length that depends on the count alone; from there on its index wraps for ever |
| Md5.LoopEndsFromFresh | ql_application/App_XD/secrypto/app_security_md5.c:181-187 | For a fresh context that length is 2^32 - 64 |
| Md5.Context.Update | ql_application/App_XD/secrypto/app_security_md5.c:172-192 | For every length below that one a context of the message m becomes the context of m followed by the input: count, state and buffered tail |
| Md5.Context.Final | ql_application/App_XD/secrypto/app_security_md5.c:194-205 | The digest is that of the message padded as in RFC 1321, sections 3.1 and 3.2 |
| Md5.DigestOf | ql_application/App_XD/secrypto/app_security_md5.c:207-214 | Init, Update and Final give the digest of the data, for lengths below 2^32 - 64 |
| Uart.SimUart.TxTimer | ql_application/App_XD/system/xd_simulate_485_uart.c:33-56 | One tick of the transmitter: start bit, eight bits low order first, stop bit, and a tick that moves on |
| Uart.SimUart.RxTimer | ql_application/App_XD/system/xd_simulate_485_uart.c:59-93 | One tick of the receiver; a failed pin read and a full buffer change nothing else |
| Uart.SimUart.Send | ql_application/App_XD/system/xd_simulate_485_uart.c:109-123 | Busy, invalid or accepted; an accepted payload leaves the transmitter at the first bit of its first byte |
| Uart.SimUart.Receive | ql_application/App_XD/system/xd_simulate_485_uart.c:126-136 | The oldest bytes are delivered and everything unread beyond max_length is dropped |
| Uart.SimUart.AbortTx | ql_application/App_XD/system/xd_simulate_485_uart.c:144-148 | The transmitter stops at once with the line high |
| Uart.MidwayAfter | ql_application/App_XD/system/xd_simulate_485_uart.c:33-93 | Within a byte transmitter and receiver agree on the bits passed |
| Uart.FrameOnWire | ql_application/App_XD/system/xd_simulate_485_uart.c:33-56 | The wire carries a low start bit, eight data bits low order first, a high stop bit and a high gap tick per byte |
| Uart.KnownFrame | ql_application/App_XD/system/xd_simulate_485_uart.c:33-56 | The frame of the byte 0x53, level by level |
| Uart.OneByte | ql_application/App_XD/system/xd_simulate_485_uart.c:33-93 | The tenth tick delivers the byte, the eleventh is no false start bit |
| Uart.AnyFrame | ql_application/App_XD/system/xd_simulate_485_uart.c:59-93 | Whatever the levels on the wire: ten ticks from a low level on, a byte is kept if the tenth level is high and there is room, dropped if it is low, and the receiver listens again |
| Uart.FrameBit | ql_application/App_XD/system/xd_simulate_485_uart.c:59-93 | Each of the eight data levels ends up in its own bit, low order first |
| Uart.Silence | ql_application/App_XD/system/xd_simulate_485_uart.c:59-93 | A high wire is silence |
| Uart.Loopback | ql_application/App_XD/system/xd_simulate_485_uart.c:33-123 | 11 ticks per byte deliver the payload unchanged as far as there is room; the transmitter is busy at every earlier tick and idle with the line high then |
| Uart.OneTickLater | ql_application/App_XD/system/xd_simulate_485_uart.c:33-93 | With the receiver's timer first everything arrives one tick later |
| Uart.LoopbackRxFirst | ql_application/App_XD/system/xd_simulate_485_uart.c:33-123 | The payload has arrived after the same number of ticks in either order of the timers |
| DoublyList.Insert | ql_components/common/doubly_list.h:41-47 | A node between two neighbours keeps the ring closed and enters the sequence there |
| DoublyList.AddHead | ql_components/common/doubly_list.h:57-60 | The new node is the first entry |
| DoublyList.AddTail | ql_components/common/doubly_list.h:70-73 | The new node is the last entry |
| DoublyList.Del | ql_components/common/doubly_list.h:82-97 | The entry leaves the sequence; its own links stay stale |
| DoublyList.DelInit | ql_components/common/doubly_list.h:103-107 | The entry leaves the sequence and is an empty ring |
| DoublyList.Move | ql_components/common/doubly_list.h:114-118 | The entry moves to the front of another list, both rings closed |
| DoublyList.MoveWithin | ql_components/common/doubly_list.h:114-118 | The entry moves to the front of its own list |
| DoublyList.MoveTail | ql_components/common/doubly_list.h:125-130 | The entry moves to the end of another list, both rings closed |
| DoublyList.MoveTailWithin | ql_components/common/doubly_list.h:125-130 | The entry moves to the end of its own list |
| DoublyList.Empty | ql_components/common/doubly_list.h:136-139 | True exactly for the empty sequence |
| DoublyList.Splice | ql_components/common/doubly_list.h:160-164 | The donor's entries come right behind the head, in order |
| DoublyList.SpliceInit | ql_components/common/doubly_list.h:173-180 | The same, and the donor is an empty list |
| DoublyList.Size | ql_components/common/doubly_list.h:243-251 | The walk ends and counts the entries modulo 2^32 |
| DoublyList.RingUnique | ql_components/common/doubly_list.h:21-24 | A head determines its sequence of entries |
| Base64.Encode | ql_application/App_XD/secrypto/app_security_base64.c:7-44 | The encoded text and a terminator are written, and nothing else |
| Base64.Decode | ql_application/App_XD/secrypto/app_security_base64.c:46-89 | The decoded bytes are written and counted, up to a group that starts with the terminator or is padded, and nothing else |
| Base64.Search | ql_application/App_XD/secrypto/app_security_base64.c:54-73 | The search loop finds a character's place in the alphabet, 0xFF for any other character |
| Base64.EncodedShape | ql_application/App_XD/secrypto/app_security_base64.c:7-44 | The text has four characters for every three bytes begun and contains no terminator |
| Base64.GroupIsRadix64 | ql_application/App_XD/secrypto/app_security_base64.c:16-38 | The four digits are the 24 bits of the group, six at a time (RFC 4648, section 4) |
| Base64.Alphabet | ql_application/App_XD/secrypto/app_security_base64.c:5 | The alphabet is that of RFC 4648, section 4: capitals, small letters, digits, plus and solidus |
| Base64.KnownTexts | ql_application/App_XD/secrypto/app_security_base64.c:7-44 | The test vectors of RFC 4648, section 10, for one, two, three and six bytes |
| Base64.GroupInverse | ql_application/App_XD/secrypto/app_security_base64.c:75-86 | The shifts and masks of the decoder undo those of the encoder |
| Base64.DecodeEncode | ql_application/App_XD/secrypto/app_security_base64.c:46-89 | Decoding an encoded text returns the bytes, for all three tails and whatever lies behind the terminator |
| Base64.EndsExactly | ql_application/App_XD/secrypto/app_security_base64.c:46-89 | A text is decoded without reading behind its terminator exactly when its length is a multiple of four or one of its groups is padded |
| Crc32.TableIsByte | ql_application/App_XD/secrypto/app_crc.c:8-52 | Every table entry is the bit-by-bit division of its index by 0xEDB88320 |
| Crc32.StepsAgree | ql_application/App_XD/secrypto/app_crc.c:56-62 | One table step equals eight steps of the reflected division |
| Crc32.Checksum | ql_application/App_XD/secrypto/app_crc.c:56-62 | The table loop computes the checksum by division, continued from the seed |
| Crc32.ChecksumCom | ql_application/App_XD/secrypto/app_crc.c:65-73 | crc32_com is crc32 with seed 0 |
| Crc32.CrcConcat | ql_application/App_XD/secrypto/app_crc.c:56-62 | crc32(b, crc32(a, c)) is the checksum of a ++ b |
| Crc32.BurstDetected | ql_application/App_XD/secrypto/app_crc.c:55-62 | Two buffers that differ only within four consecutive bytes have the same checksum exactly when they are equal |
| Crc32.CheckValue | ql_application/App_XD/secrypto/app_crc.c:55-62 | The checksum of 123456789 is 0xCBF43926, the check value of this CRC |

## Left out

- nanopb: extensions, callbacks, oneof, required fields, fixed-count arrays, static strings and bytes, static-repeated submessages, default_value streams, UTF-8 validation, double and float conversion, PB_DECODE_DELIMITED and PB_DECODE_NULLTERMINATED, pb_field_iter_find_extension and error texts.
- nanopb structures: they are passed and returned as values, so updates in place, struct layout and offsets, and the contents of a structure after a failed decode (other than the blocks it owns) are not captured.
- OStreams.OStream.Write: what a write past the buffer overwrites is not modelled; the run ends at the first one.
- Encoder.Encode: for payloads of 2^32 bytes or more the overrun is given by Fates alone, not by a condition on sizes.
- Decoder.DecString: the block's bytes are modelled up to and including the terminator only.
- FieldIters.FieldIter.Find: the extension-type search is modelled only as far as pb_field_iter_find itself skips such fields.
- SlotDetail: of the size expressions in tsl_pb.h only slotDetail_size (SLOT_DETAIL_SIZE in the model) is proved; the others are the same arithmetic.
- kfifo_init, kfifo_alloc and kfifo_free: allocation of the control structure; a size of 0, which the source's assertion lets through, is excluded.
- KfifoConcurrent: memory reordering, and what an overrun reads or writes; the side that overruns stops there.
- AES: aes128_ecb_encrypt_hex and the hex helpers; buffers that overlap the key, the vector or each other at different offsets.
- AesModes.EcbEncrypt: aes128_ecb_encrypt1 is the same body with other parameter order and is not repeated.
- Md5.Context.Update: lengths from the limit on, for which the loop does not end; LoopEndsExactly says which they are.
- get_md5_32_str: the hexadecimal output; get_md5_32_base64_str: the composition of two modelled calls.
- UART: timer set-up, baud rate and drift between the two timers.
- DoublyList.Del: deleting the head itself; list_switch and the iteration macros other than through list_size.
- Base64.Encode: a negative length, which encodes nothing.
- CRC16_Modbus_check: easy beside CRC-32.
- app_net4g.c, the ql_*.h interface headers, examples, drivers, tasks, logging and configuration macros.
