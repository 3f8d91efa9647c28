# binate frame layer, modelled in Dafny

binate is an RSocket implementation in Rust. This project models its frame
layer and the small pieces of connection state beside it:

- the wire primitives: the 24-bit `U24`, the protocol `Version`, the frame
  type and the flags word (`FrameType`, `Flags`), and the `eat_*` readers
  that every decoder is built from;
- `Payload` (metadata and data, both optional), its builder, its encoding and
  its chunking iterator `PayloadChunks`; `frame/payload.rs` and `payload.rs`
  hold two near-identical copies and the model covers both;
- the fourteen frame kinds' codecs (`new`, `encode`, `len`, `decode`), one
  module per kind, with the SETUP builder;
- the `Frame` sum type and `Frame::decode`, which reads the 6-byte header,
  rejects a nonzero stream id on the connection-scope kinds and dispatches to
  the kind's own decoder;
- `StreamIdProvider` and `RequestCounter`, the two connection counters, as
  classes whose methods update their field in place;
- the library `Error` with its `Kind` and `Code` taxonomy and its `is_*`
  classifiers;
- the well-known mimetype lookup in both directions.

Bytes are integers 0..255 and byte strings are `seq<byte>`. The `bytes`
crate's `BytesMut` is a class whose `bytes` field the `put_*` methods extend,
and its `Buf` is a `Cursor` class whose `rest` field the `get_*` methods
consume. Each `eat_*` reader and each `decode` is defined twice: once as a
pure function from the unread bytes to a `Step` (the result and the bytes
left unread), and once as a method on a `Cursor` that is proved to do exactly
what that function says. Every codec is then proved to round-trip: the bytes
`encode` appends start with a header that reads back as the frame's stream
id, type and flags, and decoding the rest gives the frame back with nothing
left over. `Frames.RoundTrip` lifts this to `Frame::encode` followed by
`Frame::decode`.

`& MAX_U31` and `& MAX_U63` are written as `% 2^31` and `% 2^63`. The
atomic `i32` counters wrap around explicitly (`Bytes.WrapI32`).

## Model

| member | source | states |
|---|---|---|
| Bytes.Mask31 | binate/src/frame/visit.rs:61-65 | `x & MAX_U31` is at most `MAX_U31`, and leaves a value that already fits unchanged |
| Bytes.Mask63 | binate/src/frame/visit.rs:73-77 | `x & MAX_U63` is at most `MAX_U63`, and leaves a value that already fits unchanged |
| Bytes.WrapI32 | binate/src/connection/counter.rs:16-29 | two's-complement wrap-around into `i32`: the result is an `i32`, equal to the input when the input fits |
| Bytes.WrapI32Add | binate/src/connection/counter.rs:26-29 | adding after a wrap gives the same as wrapping the exact sum, which is what `fetch_add` computes |
| Bytes.Mask31OfWrap | binate/src/connection/stream_id.rs:34-35 | masking the counter with `STREAM_ID_MASK` after it wrapped gives the same id as masking the exact sum |
| FrameU24.U24.IntoU32 | binate/src/frame/u24.rs:42-45 | the value is at most `U24::MAX`; its high part is the `u8` and its low 16 bits the `u16` |
| FrameU24.U24.Len | binate/src/frame/u24.rs:53-55 | `len` is 3, the size of what `encode` writes |
| FrameU24.U24.Encoding | binate/src/frame/u24.rs:57-60 | three bytes: the high byte, then the low `u16` big-endian |
| FrameU24.U24.Encode | binate/src/frame/u24.rs:57-60 | appends exactly `Encoding()` to the buffer |
| FrameU24.Bounds | binate/src/frame/u24.rs:11-14 | `MAX` is `u32::MAX >> 8` = 16,777,215 and `MIN` is 0 |
| FrameU24.New | binate/src/frame/u24.rs:17-19 | `into_u32` of the result is `high * 65536 + low` |
| FrameU24.FromU32 | binate/src/frame/u24.rs:26-39 | demands a value at most `MAX` (the assertion), and `into_u32` gives that value back |
| FrameU24.FromIntoU32 | binate/src/frame/u24.rs:26-45 | `from_u32(into_u32(u)) == u` for every `U24` |
| FrameVersion.CmpU16 | binate/src/frame/version.rs:42-49 | the `u16` ordering: `Less` exactly when `a < b`, `Equal` exactly when equal |
| FrameVersion.Version.Len | binate/src/frame/version.rs:36-38 | `len` is 4, the size of what `encode` writes |
| FrameVersion.Version.Encoding | binate/src/frame/version.rs:31-34 | `encode` writes four bytes |
| FrameVersion.Cmp | binate/src/frame/version.rs:42-49 | `Equal` exactly on equal versions; when the majors differ, the majors decide |
| FrameVersion.Version.Encode | binate/src/frame/version.rs:31-34 | appends exactly `Encoding()` (major then minor, big-endian) |
| FrameVersion.New | binate/src/frame/version.rs:15-17 | the version holds the given major and minor |
| FrameVersion.Default | binate/src/frame/version.rs:63-67 | the default version is 1.0 |
| FrameVersion.CmpIsLexicographic | binate/src/frame/version.rs:41-49 | `cmp` is lexicographic on (major, minor), in all three outcomes, and `Equal` exactly on equal versions |
| FrameVersion.CmpAntisymmetric | binate/src/frame/version.rs:41-49 | swapping the operands reverses the ordering |
| FrameVersion.CmpTransitive | binate/src/frame/version.rs:41-49 | the ordering is transitive |
| FrameVersion.EncodingReadsBack | binate/src/frame/version.rs:31-34 | the 4 encoded bytes read back as the major and the minor, so no two versions share an encoding |
| FrameFlags.FrameType.Value | binate/src/frame/flags.rs:102-120 | the raw type value is 0x01..0x0E or 0x3F |
| FrameFlags.FrameType.Bits | binate/src/frame/flags.rs:132-151 | `bits()` is the type code times 1024, so the ten flag bits stay clear |
| FrameFlags.FromValue | binate/src/frame/flags.rs:44-75 | a frame type `from_value` finds has exactly the code it was given |
| FrameFlags.FromBits | binate/src/frame/flags.rs:77-100 | a frame type `from_bits` finds has the code held in the word's high six bits |
| FrameFlags.FromBitsTruncate | binate/src/frame/visit.rs:31 | `from_bits_truncate` keeps exactly the bits of the known flags |
| FrameFlags.Contains | binate/src/frame/flags.rs:176-216 | `contains(other)` holds exactly when or-ing `other` in changes nothing |
| FrameFlags.Union | binate/src/frame/codec/setup.rs:253-262 | `flags \|= other` is the least set of flags containing both operands: it contains both, and every set containing both contains it |
| FrameFlags.IsIgnore | binate/src/frame/flags.rs:177-180 | `is_ignore` holds exactly when the IGNORE bit is set |
| FrameFlags.IsMetadata | binate/src/frame/flags.rs:182-185 | `is_metadata` holds exactly when the METADATA bit is set |
| FrameFlags.IsFollows | binate/src/frame/flags.rs:187-190 | `is_follows` holds exactly when the FOLLOWS bit is set |
| FrameFlags.IsResume | binate/src/frame/flags.rs:192-195 | `is_resume` holds exactly when the RESUME bit is set |
| FrameFlags.IsRespond | binate/src/frame/flags.rs:197-200 | `is_respond` holds exactly when the RESPOND bit is set |
| FrameFlags.IsComplete | binate/src/frame/flags.rs:202-205 | `is_complete` holds exactly when the COMPLETE bit is set |
| FrameFlags.IsLease | binate/src/frame/flags.rs:207-210 | `is_lease` holds exactly when the LEASE bit is set |
| FrameFlags.IsNext | binate/src/frame/flags.rs:212-215 | `is_next` holds exactly when the NEXT bit is set |
| FrameFlags.HeaderWord | binate/src/frame/codec/request_stream.rs:91 | in `type.bits() \| flags.bits()` the low ten bits are the flags and the high six the type's bits |
| FrameFlags.FollowsAndMetadata | binate/src/frame/codec/request_fnf.rs:33-44 | the flags built by the request constructors: FOLLOWS exactly when asked for, METADATA exactly when the payload has metadata, no other bit |
| FrameFlags.FromValueOfValue | binate/src/frame/flags.rs:44-120 | `from_value(t.value()) == Some(t)` for every frame type |
| FrameFlags.FromValueDomain | binate/src/frame/flags.rs:44-75 | `from_value` recognises exactly 0x01..0x0E and 0x3F, and inverts `value` there |
| FrameFlags.BitsRoundTrip | binate/src/frame/flags.rs:77-151 | `bits()` is `value() << 10`, and `from_bits(t.bits()) == Some(t)` |
| FrameFlags.HeaderWordKeepsBoth | binate/src/frame/flags.rs:77-100 | in the header word `type.bits() \| flags.bits()`, `from_bits` still finds the type and `from_bits_truncate` the flags |
| FrameFlags.FlagsBelowTypeBits | binate/src/frame/flags.rs:155-174 | no flag constant reaches into the six type bits |
| FrameFlags.SharedBits | binate/src/frame/flags.rs:162-214 | FOLLOWS, RESUME and RESPOND are one bit, as are COMPLETE and LEASE, so their `is_*` predicates agree |
| FrameFlags.ZeroIsNoType | binate/src/frame/flags.rs:223-227 | the raw value 0 is no frame type |
| FrameVisit.ReadsBack | binate/src/frame/visit.rs:43-77 | `n` big-endian bytes of a value that fits read back as that value, and the rest is untouched |
| FrameVisit.EatStreamId | binate/src/frame/visit.rs:14-19 | succeeds exactly when at least 4 bytes remain, and otherwise fails with `InComplete` consuming nothing; a stream id read from the wire is at most `MAX_U31` |
| FrameVisit.EatFlags | binate/src/frame/visit.rs:21-33 | incomplete exactly when fewer than 2 bytes remain, and then nothing is consumed; otherwise exactly two bytes are consumed |
| FrameVisit.TypeAndFlags | binate/src/frame/visit.rs:24-32 | a frame type exactly when `from_bits` finds one in the word, and then that type with the word's defined flag bits (`from_bits_truncate`); otherwise `UnrecognizedFrameType(word >> 10)` |
| FrameVisit.TypeAndFlagsOfHeaderWord | binate/src/frame/visit.rs:24-32 | a header word built from a type and flags gives back exactly that type and those flags |
| FrameVisit.UndefinedBitsChangeNothing | binate/src/frame/flags.rs:154-174 | bits that are neither type bits nor defined flag bits change neither the type code nor the flag bits of a word |
| FrameVisit.TypeAndFlagsIgnoresUndefinedBits | binate/src/frame/visit.rs:24-32 | setting undefined low bits of a word does not change what `eat_flags` makes of it |
| FrameVisit.EatFlagsDropsUndefinedBits | binate/src/frame/visit.rs:122-152 | a header word with undefined low bits set (such as `0b11`) still reads as its type and its defined flags, consuming exactly two bytes |
| FrameVisit.EatVersion | binate/src/frame/visit.rs:35-41 | succeeds exactly when 4 bytes remain; otherwise incomplete and nothing consumed |
| FrameVisit.EatVersionReadsPrefix | binate/src/frame/visit.rs:35-41 | the bytes consumed are the encoding of the version returned |
| FrameVisit.EatU8 | binate/src/frame/visit.rs:43-47 | succeeds exactly when at least 2 bytes remain, although it reads one; otherwise incomplete and nothing consumed |
| FrameVisit.EatU8ReadsPrefix | binate/src/frame/visit.rs:43-47 | consumes exactly the byte it returns |
| FrameVisit.EatU16 | binate/src/frame/visit.rs:49-53 | succeeds exactly when 2 bytes remain; otherwise incomplete and nothing consumed |
| FrameVisit.EatU16ReadsPrefix | binate/src/frame/visit.rs:49-53 | consumes exactly the big-endian bytes of the value it returns |
| FrameVisit.EatU24 | binate/src/frame/visit.rs:55-59 | succeeds exactly when 3 bytes remain; every failure is `InComplete`; with exactly 2 bytes the high byte is consumed before the failure, with fewer nothing is |
| FrameVisit.EatU24ReadsPrefix | binate/src/frame/visit.rs:55-59 | consumes exactly the encoding of the `U24` it returns |
| FrameVisit.EatU32 | binate/src/frame/visit.rs:67-71 | succeeds exactly when 4 bytes remain; otherwise incomplete and nothing consumed |
| FrameVisit.EatU32ReadsPrefix | binate/src/frame/visit.rs:67-71 | consumes exactly the big-endian bytes of the value it returns |
| FrameVisit.EatU31 | binate/src/frame/visit.rs:61-65 | succeeds exactly when at least 4 bytes remain, and otherwise fails with `InComplete` consuming nothing; a 31-bit field read from the wire is at most `MAX_U31` |
| FrameVisit.EatU63 | binate/src/frame/visit.rs:73-77 | succeeds exactly when at least 8 bytes remain, and otherwise fails with `InComplete` consuming nothing; a 63-bit field read from the wire is at most `MAX_U63` |
| FrameVisit.EatBytes | binate/src/frame/visit.rs:79-83 | succeeds exactly when `len` bytes remain; then returns exactly those bytes, and on failure consumes nothing |
| FrameVisit.EatPayload | binate/src/frame/visit.rs:85-101 | a payload it returns consumed the buffer and has no empty section; with a metadata length to read, fewer than 3 bytes are incomplete |
| FrameVisit.EatSections | binate/src/frame/visit.rs:89-100 | after the length, succeeds exactly when the metadata fits and is incomplete otherwise; the metadata has that length, everything is consumed, and no section is empty |
| FrameVisit.EatRemaining | binate/src/frame/visit.rs:94-97 | the rest of the buffer as data, absent exactly when nothing remains |
| FrameVisit.EatResumeToken | binate/src/frame/visit.rs:103-114 | without the RESUME flag, reads nothing and returns no token; with it, a successful read returns a token under 65,536 bytes |
| FrameVisit.EatStreamIdOfBe | binate/src/frame/visit.rs:14-19 | a written `u32` reads back as the stream id with its top bit cleared |
| FrameVisit.EatU31OfBe | binate/src/frame/visit.rs:61-65 | a written `u32` reads back with its top bit cleared |
| FrameVisit.EatU32OfBe | binate/src/frame/visit.rs:67-71 | a written `u32` reads back unchanged |
| FrameVisit.EatU63OfBe | binate/src/frame/visit.rs:73-77 | a written `u64` reads back with its top bit cleared |
| FrameVisit.EatU16OfBe | binate/src/frame/visit.rs:49-53 | a written `u16` reads back unchanged |
| FrameVisit.EatU8Of | binate/src/frame/visit.rs:43-47 | a written byte reads back when at least one byte follows it |
| FrameVisit.EatU8LastByte | binate/src/frame/visit.rs:43-47 | `eat_u8` asks for two bytes, so a buffer holding one byte is incomplete |
| FrameVisit.EatBytesOf | binate/src/frame/visit.rs:79-83 | `eat_bytes(b + t, \|b\|)` returns `b` and leaves `t` |
| FrameVisit.EatVersionOf | binate/src/frame/visit.rs:35-41 | an encoded version reads back |
| FrameVisit.EatFlagsOf | binate/src/frame/visit.rs:21-33 | a written header word reads back as its type and flags |
| FrameVisit.EatFlagsUnknown | binate/src/frame/visit.rs:21-33 | a word with no known type fails with `UnrecognizedFrameType` carrying `word >> 10` |
| FrameVisit.EatU24Of | binate/src/frame/visit.rs:55-59 | an encoded `U24` reads back, whatever bytes follow it |
| FrameVisit.EatResumeTokenOf | binate/src/frame/visit.rs:103-114 | under the RESUME flag, a length-prefixed token reads back |
| FrameVisit.EatPayloadOf | binate/src/frame/visit.rs:85-101 | a U24 metadata length followed by a payload with no empty section reads back as that payload |
| FrameVisit.EmptySectionsReadAsAbsent | binate/src/frame/visit.rs:88-97 | present but empty sections are read back as absent |
| CursorVisit.EatStreamId | binate/src/frame/visit.rs:14-19 | on a cursor: the result and the bytes left are those of `FrameVisit.EatStreamId` |
| CursorVisit.EatFlags | binate/src/frame/visit.rs:21-33 | on a cursor: as `FrameVisit.EatFlags` |
| CursorVisit.EatVersion | binate/src/frame/visit.rs:35-41 | on a cursor: as `FrameVisit.EatVersion` |
| CursorVisit.EatU8 | binate/src/frame/visit.rs:43-47 | on a cursor: as `FrameVisit.EatU8` |
| CursorVisit.EatU16 | binate/src/frame/visit.rs:49-53 | on a cursor: as `FrameVisit.EatU16` |
| CursorVisit.EatU24 | binate/src/frame/visit.rs:55-59 | on a cursor: as `FrameVisit.EatU24`, including the partial read when the `u16` is missing |
| CursorVisit.EatU31 | binate/src/frame/visit.rs:61-65 | on a cursor: as `FrameVisit.EatU31` |
| CursorVisit.EatU32 | binate/src/frame/visit.rs:67-71 | on a cursor: as `FrameVisit.EatU32` |
| CursorVisit.EatU63 | binate/src/frame/visit.rs:73-77 | on a cursor: as `FrameVisit.EatU63` |
| CursorVisit.EatBytes | binate/src/frame/visit.rs:79-83 | on a cursor: as `FrameVisit.EatBytes` |
| CursorVisit.EatPayload | binate/src/frame/visit.rs:85-101 | on a cursor: as `FrameVisit.EatPayload` |
| CursorVisit.EatRemaining | binate/src/frame/visit.rs:94-97 | on a cursor: as `FrameVisit.EatRemaining` |
| CursorVisit.EatResumeToken | binate/src/frame/visit.rs:103-114 | on a cursor: as `FrameVisit.EatResumeToken` |
| FrameHeader.Header | binate/src/frame/codec/cancel.rs:42-45 | the header is 6 bytes: the stream id, then the type-and-flags word |
| FrameHeader.PutHeader | binate/src/frame/codec/cancel.rs:42-45 | appends exactly the header |
| FrameHeader.HeaderReadsBack | binate/src/frame/mod.rs:110-115 | a written header reads back as the stream id with its top bit cleared, the type and the flags, and the body follows it |
| FrameHeader.PutPrefixedPayload | binate/src/frame/codec/request_response.rs:75-84 | appends the metadata length as a U24, then the payload |
| Payloads.Payload.Len | binate/src/frame/payload.rs:43-53 | `len` is the metadata length plus the data length, an absent section counting 0 |
| Payloads.Payload.IsEmpty | binate/src/frame/payload.rs:54-57 | `is_empty` holds exactly when `encode` writes nothing |
| Payloads.Payload.HasData | binate/src/frame/payload.rs:87-91 | without data, the encoding is the metadata alone |
| Payloads.Payload.HasMetadata | binate/src/frame/payload.rs:92-96 | without metadata, the encoding is the data alone |
| Payloads.Payload.Encoding | binate/src/frame/payload.rs:159-168 | the metadata comes first and the data right after it, nothing else |
| Payloads.Payload.Split | binate/src/frame/payload.rs:98-100 | `split` returns both sections unchanged |
| Payloads.Payload.Encode | binate/src/frame/payload.rs:159-168 | appends the metadata, then the data |
| Payloads.New | binate/src/frame/payload.rs:33-36 | the payload holds the given sections |
| Payloads.IsEmptyIffNoBytes | binate/src/payload.rs:56-58 | `is_empty` holds exactly when neither section carries a byte |
| Payloads.PayloadBuilder.SetData | binate/src/payload.rs:142-149 | sets the data and nothing else |
| Payloads.PayloadBuilder.SetMetadata | binate/src/payload.rs:151-158 | sets the metadata and nothing else |
| Payloads.PayloadBuilder.Build | binate/src/payload.rs:159-162 | `build` returns the sections the setters stored |
| Payloads.NewBuilder | binate/src/payload.rs:136-140 | a new builder builds the empty payload |
| Payloads.Piece | binate/src/payload.rs:225-242 | one section's cut: a section longer than the size yields its first `size` bytes and keeps the rest; a shorter one is taken whole; the two parts join back to the section |
| Payloads.NextChunk | binate/src/payload.rs:220-244 | `None` exactly when both sections are consumed, and then the state is unchanged; otherwise each section's piece followed by what is left of it gives the section back, no piece is longer than the size, and the size stays |
| Payloads.Remaining | binate/src/payload.rs:217-244 | the pieces still to come: none exactly when both sections are consumed |
| Payloads.ChunkCount | binate/src/payload.rs:198-210 | `len` chunks of the size hold each section whole (that it is exactly the number of pieces yielded is `Payloads.ChunkCountIsLength`) |
| Payloads.CeilDiv | binate/src/payload.rs:199-210 | the integer ceiling of `n / c` |
| Payloads.ExhaustedStaysExhausted | binate/src/frame/payload.rs:250-256 | once both sections are consumed, every further `next` yields `None` and changes nothing |
| Payloads.NextYieldsRemaining | binate/src/payload.rs:217-244 | the `i`-th call of `next` yields the `i`-th piece, and after the last piece the iterator is exhausted |
| Payloads.ChunksBounded | binate/src/payload.rs:103-107 | no piece carries more than `chunk_size` bytes of either section |
| Payloads.OnlyLastPieceShort | binate/src/payload.rs:103-107 | every piece of a section except its last is exactly `chunk_size` bytes |
| Payloads.ChunksReassemble | binate/src/payload.rs:217-244 | joining the pieces' metadata, and their data, in order gives back the two sections |
| Payloads.PieceCount | binate/src/payload.rs:199-210 | a non-empty section yields `ceil(len / size)` pieces |
| Payloads.ChunkCountIsLength | binate/src/payload.rs:196-210 | `PayloadChunks::len` is the number of pieces the iterator yields |
| Payloads.ChunkCountZero | binate/src/payload.rs:212-215 | `is_empty` of the iterator holds exactly when neither section has a byte left |
| Payloads.PayloadChunks.constructor | binate/src/payload.rs:112-116 | the iterator starts with the piece size and both sections |
| Payloads.PayloadChunks.Next | binate/src/payload.rs:217-244 | `next` yields and leaves what `NextChunk` says |
| Payloads.PayloadChunks.Len | binate/src/payload.rs:198-210 | when no section is present but empty, `len` is the number of pieces `next` still yields |
| Payloads.PayloadChunks.IsEmpty | binate/src/payload.rs:211-215 | `is_empty` holds exactly when neither section has a byte left |
| Payloads.ChunksOfFrame | binate/src/frame/payload.rs:107-110 | `chunks(mtu)` of the frame copy starts the iterator, with no check on `mtu` |
| Payloads.Chunks | binate/src/payload.rs:112-116 | `chunks(chunk_size)` demands a nonzero size and starts the iterator |
| Payloads.ZeroMtuNeverEnds | binate/src/frame/payload.rs:107-110 | with `mtu` 0, `next` on a non-empty section yields empty pieces and returns to the same state, so the iteration never ends |
| SetupCodec.MimeEncoding | binate/src/frame/codec/setup.rs:152-155 | a mimetype is written as one length byte and its bytes |
| SetupCodec.SetupFrame.FixedEncoding | binate/src/frame/codec/setup.rs:143-147 | the fixed fields (header, version, keepalive, lifetime) are 18 bytes |
| SetupCodec.SetupFrame.Len | binate/src/frame/codec/setup.rs:164-189 | as written: the size `encode` writes with a token, and 2 more without one |
| SetupCodec.SetupFrame.EncodedLen | binate/src/frame/codec/setup.rs:164-189 | corrected: always the size `encode` writes |
| SetupCodec.SetupFrame.PutFixed | binate/src/frame/codec/setup.rs:143-147 | appends the fixed fields |
| SetupCodec.SetupFrame.Encode | binate/src/frame/codec/setup.rs:142-162 | appends exactly the SETUP encoding |
| SetupCodec.PutToken | binate/src/frame/codec/setup.rs:148-151 | appends the length-prefixed token when there is one, nothing otherwise |
| SetupCodec.PutMimetype | binate/src/frame/codec/setup.rs:152-155 | appends the length byte and the mimetype |
| SetupCodec.EatMimetype | binate/src/frame/codec/setup.rs:204-208 | the length byte and that many bytes; fewer than 2 bytes are incomplete |
| SetupCodec.Decoding | binate/src/frame/codec/setup.rs:195-220 | fewer than 4 bytes are incomplete; a decoded SETUP has 31-bit keepalive fields, a token exactly under the RESUME flag, and the flags it was given |
| SetupCodec.DecodingAfterLifetime | binate/src/frame/codec/setup.rs:202-219 | the decode after the two 31-bit fields, with the same guarantees |
| SetupCodec.Decode | binate/src/frame/codec/setup.rs:195-220 | on a cursor: as `Decoding` |
| SetupCodec.EatMimetypeOf | binate/src/frame/codec/setup.rs:152-155 | a mimetype under 256 bytes reads back |
| SetupCodec.MimetypeOf256BytesReadsAsEmpty | binate/src/frame/codec/setup.rs:315-323 | a 256-byte mimetype is written with length byte 0 and reads back as empty, leaving its bytes unread |
| SetupCodec.RoundTrip | binate/src/frame/codec/setup.rs:142-220 | SETUP round-trips when the token matches the RESUME flag and fits, the keepalive fields are 31-bit, the mimetypes are under 256 bytes and no section is empty |
| SetupCodec.EncodingSplits | binate/src/frame/codec/setup.rs:142-162 | the encoding is a SETUP header on stream 0 followed by the body |
| SetupCodec.FixedFieldsReadBack | binate/src/frame/codec/setup.rs:200-202 | version, keepalive and lifetime read back |
| SetupCodec.TokenReadsBack | binate/src/frame/codec/setup.rs:148-151 | the token reads back, present exactly under the RESUME flag |
| SetupCodec.MimetypesAndPayloadReadBack | binate/src/frame/codec/setup.rs:152-161 | both mimetypes and the payload read back |
| SetupCodec.AfterLifetimeRoundTrip | binate/src/frame/codec/setup.rs:148-219 | everything after the lifetime reads back as the rest of the frame |
| SetupCodec.DefaultMimetypeBytes | binate/src/mimetype.rs:4 | the default mimetype's bytes are the 18 characters of `application/binary` |
| SetupCodec.SetupFrameBuilder.SetResumeFlag | binate/src/frame/codec/setup.rs:253-256 | the flags become `flags \| RESUME`, the least set holding the old flags and RESUME; nothing else changes |
| SetupCodec.SetupFrameBuilder.SetLeaseFlag | binate/src/frame/codec/setup.rs:259-262 | the flags become `flags \| LEASE`, the least set holding the old flags and LEASE; nothing else changes |
| SetupCodec.SetupFrameBuilder.SetVersion | binate/src/frame/codec/setup.rs:265-268 | sets the version and nothing else |
| SetupCodec.SetupFrameBuilder.SetKeepaliveInterval | binate/src/frame/codec/setup.rs:278-282 | stores the interval masked to 31 bits, and nothing else |
| SetupCodec.SetupFrameBuilder.SetKeepaliveTimeout | binate/src/frame/codec/setup.rs:286-290 | stores the timeout masked to 31 bits, and nothing else |
| SetupCodec.SetupFrameBuilder.SetResumeToken | binate/src/frame/codec/setup.rs:297-302 | demands at most 65,535 bytes; sets the token, and the flags become `flags \| RESUME`, keeping every old flag; nothing else changes |
| SetupCodec.SetupFrameBuilder.SetMetadataMimetype | binate/src/frame/codec/setup.rs:315-323 | as written: accepts up to 256 bytes and sets the metadata mimetype |
| SetupCodec.SetupFrameBuilder.SetDataMimetype | binate/src/frame/codec/setup.rs:336-344 | as written: accepts up to 256 bytes and sets the data mimetype |
| SetupCodec.SetupFrameBuilder.SetMetadataMimetypeBounded | binate/src/frame/codec/setup.rs:315-323 | corrected: accepts up to 255 bytes and keeps the builder sendable |
| SetupCodec.SetupFrameBuilder.SetDataMimetypeBounded | binate/src/frame/codec/setup.rs:336-344 | corrected: accepts up to 255 bytes and keeps the builder sendable |
| SetupCodec.SetupFrameBuilder.SetMetadata | binate/src/frame/codec/setup.rs:347-351 | sets the metadata and keeps the data; the flags become `flags \| METADATA`, keeping every old flag; nothing else changes |
| SetupCodec.SetupFrameBuilder.SetData | binate/src/frame/codec/setup.rs:354-357 | sets the data, keeps the metadata |
| SetupCodec.SetupFrameBuilder.Build | binate/src/frame/codec/setup.rs:360-371 | the frame carries every field of the builder |
| SetupCodec.NewBuilder | binate/src/frame/codec/setup.rs:236-248 | the defaults: no flags, version 1.0, no token, 30,000 ms keepalive, 60,000 ms timeout, `application/binary` for both mimetypes, an empty payload; the builder is sendable |
| SetupCodec.BuiltFrameRoundTrip | binate/src/frame/codec/setup.rs:360-371 | a frame built from a sendable builder encodes, decodes back to itself, and its corrected length is its encoded size |
| SetupCodec.DefaultFrameLenOvercounts | binate/src/frame/codec/setup.rs:164-189 | the default frame's `len` is 61 while `encode` writes 59 bytes |
| ErrorCodec.ErrorFrame.Len | binate/src/frame/codec/error.rs:155-167 | `len` is the size `encode` writes |
| ErrorCodec.ErrorFrame.Encode | binate/src/frame/codec/error.rs:146-153 | appends exactly the ERROR encoding |
| ErrorCodec.New | binate/src/frame/codec/error.rs:113-121 | stream id and code masked to 31 bits, unchanged when they fit; the data as given |
| ErrorCodec.ValidateStreamId | binate/src/frame/codec/error.rs:188-218 | setup, resume and connection codes need stream 0, the four stream codes a nonzero stream, any other code passes |
| ErrorCodec.Decoding | binate/src/frame/codec/error.rs:173-185 | fewer than 4 bytes are incomplete; otherwise it fails exactly when the code does not suit the stream id; a decoded frame has the given stream id, the first 4 bytes as code, and the rest as data, absent exactly when empty |
| ErrorCodec.Decode | binate/src/frame/codec/error.rs:173-185 | on a cursor: as `Decoding` |
| ErrorCodec.RoundTrip | binate/src/frame/codec/error.rs:146-185 | ERROR round-trips when the code suits the stream id and any data is non-empty |
| ErrorCodec.EmptyDataReadsAsAbsent | binate/src/frame/codec/error.rs:180-184 | empty data reads back as absent |
| ErrorCodec.MisaddressedCodesRejected | binate/src/frame/codec/error.rs:188-218 | INVALID_SETUP on a nonzero stream and APPLICATION_ERROR on stream 0 fail to decode |
| LeaseCodec.LeaseFrame.Len | binate/src/frame/codec/lease.rs:81-93 | `len` is the size `encode` writes |
| LeaseCodec.LeaseFrame.Encode | binate/src/frame/codec/lease.rs:67-79 | appends exactly the LEASE encoding, on stream 0 |
| LeaseCodec.New | binate/src/frame/codec/lease.rs:41-48 | the frame holds the given fields |
| LeaseCodec.Decoding | binate/src/frame/codec/lease.rs:99-117 | a nonzero stream id fails; fewer than 8 bytes are incomplete; decoded fields are 31-bit |
| LeaseCodec.Decode | binate/src/frame/codec/lease.rs:99-117 | on a cursor: as `Decoding` |
| LeaseCodec.RoundTrip | binate/src/frame/codec/lease.rs:67-117 | LEASE round-trips when both fields are 31-bit and any metadata is non-empty |
| KeepaliveCodec.KeepaliveFrame.Len | binate/src/frame/codec/keepalive.rs:82-93 | `len` is the size `encode` writes |
| KeepaliveCodec.KeepaliveFrame.Encode | binate/src/frame/codec/keepalive.rs:69-80 | appends exactly the KEEPALIVE encoding, on stream 0 |
| KeepaliveCodec.New | binate/src/frame/codec/keepalive.rs:39-50 | the position masked to 63 bits, unchanged when it fits; data and RESPOND as given |
| KeepaliveCodec.Decoding | binate/src/frame/codec/keepalive.rs:99-117 | a nonzero stream id fails; fewer than 8 bytes are incomplete; RESPOND read from the flags |
| KeepaliveCodec.Decode | binate/src/frame/codec/keepalive.rs:99-117 | on a cursor: as `Decoding` |
| KeepaliveCodec.RoundTrip | binate/src/frame/codec/keepalive.rs:69-117 | KEEPALIVE round-trips when the position is 63-bit and any data is non-empty |
| KeepaliveCodec.EmptyDataReadsAsAbsent | binate/src/frame/codec/keepalive.rs:99-117 | empty data reads back as absent |
| RequestResponseCodec.RequestResponseFrame.Len | binate/src/frame/codec/request_response.rs:86-92 | `len` is the size `encode` writes |
| RequestResponseCodec.RequestResponseFrame.Encode | binate/src/frame/codec/request_response.rs:75-84 | appends exactly the REQUEST_RESPONSE encoding |
| RequestResponseCodec.New | binate/src/frame/codec/request_response.rs:35-46 | stream id masked; FOLLOWS as asked, METADATA exactly when the payload has metadata |
| RequestResponseCodec.Decoding | binate/src/frame/codec/request_response.rs:98-105 | fewer than 3 bytes are incomplete; a decoded frame keeps the stream id and the flags |
| RequestResponseCodec.Decode | binate/src/frame/codec/request_response.rs:98-105 | on a cursor: as `Decoding` |
| RequestResponseCodec.RoundTrip | binate/src/frame/codec/request_response.rs:75-105 | REQUEST_RESPONSE round-trips when the stream id is 31-bit and no section is empty |
| RequestFnfCodec.RequestFnfFrame.Len | binate/src/frame/codec/request_fnf.rs:84-90 | `len` is the size `encode` writes |
| RequestFnfCodec.RequestFnfFrame.Encode | binate/src/frame/codec/request_fnf.rs:73-82 | appends exactly the REQUEST_FNF encoding |
| RequestFnfCodec.New | binate/src/frame/codec/request_fnf.rs:33-44 | stream id masked; FOLLOWS as asked, METADATA exactly when the payload has metadata |
| RequestFnfCodec.Decoding | binate/src/frame/codec/request_fnf.rs:96-103 | fewer than 3 bytes are incomplete; a decoded frame keeps the stream id and the flags |
| RequestFnfCodec.Decode | binate/src/frame/codec/request_fnf.rs:96-103 | on a cursor: as `Decoding` |
| RequestFnfCodec.RoundTrip | binate/src/frame/codec/request_fnf.rs:73-103 | REQUEST_FNF round-trips when the stream id is 31-bit and no section is empty |
| RequestStreamCodec.RequestStreamFrame.Len | binate/src/frame/codec/request_stream.rs:101-108 | `len` is the size `encode` writes |
| RequestStreamCodec.RequestStreamFrame.Encode | binate/src/frame/codec/request_stream.rs:89-99 | appends exactly the REQUEST_STREAM encoding |
| RequestStreamCodec.New | binate/src/frame/codec/request_stream.rs:37-55 | stream id and initial request-n masked to 31 bits; FOLLOWS and METADATA as for the other requests |
| RequestStreamCodec.Decoding | binate/src/frame/codec/request_stream.rs:114-122 | fewer than 7 bytes are incomplete; a decoded frame has a 31-bit initial request-n |
| RequestStreamCodec.Decode | binate/src/frame/codec/request_stream.rs:114-122 | on a cursor: as `Decoding` |
| RequestStreamCodec.RoundTrip | binate/src/frame/codec/request_stream.rs:89-122 | REQUEST_STREAM round-trips when both 31-bit fields fit and no section is empty |
| RequestNCodec.RequestNFrame.Len | binate/src/frame/codec/request_n.rs:62-67 | `len` is the size `encode` writes |
| RequestNCodec.RequestNFrame.Encode | binate/src/frame/codec/request_n.rs:56-60 | appends exactly the REQUEST_N encoding |
| RequestNCodec.New | binate/src/frame/codec/request_n.rs:36-42 | stream id and request-n masked to 31 bits, unchanged when they fit |
| RequestNCodec.Decoding | binate/src/frame/codec/request_n.rs:73-80 | incomplete exactly when fewer than 4 bytes remain; reads exactly 4 bytes as a 31-bit request-n |
| RequestNCodec.Decode | binate/src/frame/codec/request_n.rs:73-80 | on a cursor: as `Decoding` |
| RequestNCodec.RoundTrip | binate/src/frame/codec/request_n.rs:56-80 | REQUEST_N round-trips when both fields are 31-bit |
| CancelCodec.CancelFrame.Len | binate/src/frame/codec/cancel.rs:47-51 | `len` is 6, the size `encode` writes |
| CancelCodec.CancelFrame.Encode | binate/src/frame/codec/cancel.rs:42-45 | appends exactly the CANCEL header |
| CancelCodec.New | binate/src/frame/codec/cancel.rs:29-33 | stream id masked to 31 bits, unchanged when it fits |
| CancelCodec.Decoding | binate/src/frame/codec/cancel.rs:57-63 | reads no byte and always succeeds with the given stream id |
| CancelCodec.Decode | binate/src/frame/codec/cancel.rs:57-63 | on a cursor: as `Decoding` |
| CancelCodec.RoundTrip | binate/src/frame/codec/cancel.rs:42-63 | CANCEL round-trips when the stream id is 31-bit |
| PayloadCodec.PayloadFrame.Len | binate/src/frame/codec/payload.rs:100-106 | `len` is the size `encode` writes |
| PayloadCodec.PayloadFrame.Encode | binate/src/frame/codec/payload.rs:89-98 | appends exactly the PAYLOAD encoding |
| PayloadCodec.New | binate/src/frame/codec/payload.rs:42-50 | stream id masked; FOLLOWS, COMPLETE and NEXT kept from the given flags, METADATA exactly when the payload has metadata, no other bit |
| PayloadCodec.Decoding | binate/src/frame/codec/payload.rs:112-119 | fewer than 3 bytes are incomplete; a decoded frame keeps the stream id and the flags |
| PayloadCodec.Decode | binate/src/frame/codec/payload.rs:112-119 | on a cursor: as `Decoding` |
| PayloadCodec.RoundTrip | binate/src/frame/codec/payload.rs:89-119 | PAYLOAD round-trips when the stream id is 31-bit and no section is empty |
| MetadataPushCodec.MetadataPushFrame.Len | binate/src/frame/codec/metadata_push.rs:51-56 | `len` is the size `encode` writes |
| MetadataPushCodec.MetadataPushFrame.Encode | binate/src/frame/codec/metadata_push.rs:45-49 | appends exactly the METADATA_PUSH encoding, on stream 0 with the METADATA flag |
| MetadataPushCodec.New | binate/src/frame/codec/metadata_push.rs:34-36 | the frame holds the given metadata |
| MetadataPushCodec.Decoding | binate/src/frame/codec/metadata_push.rs:62-69 | the whole rest of the buffer is the metadata |
| MetadataPushCodec.Decode | binate/src/frame/codec/metadata_push.rs:62-69 | on a cursor: as `Decoding` |
| MetadataPushCodec.RoundTrip | binate/src/frame/codec/metadata_push.rs:45-69 | METADATA_PUSH round-trips for every metadata |
| ResumeCodec.ResumeFrame.Len | binate/src/frame/codec/resume.rs:101-110 | `len` is the size `encode` writes |
| ResumeCodec.ResumeFrame.Encode | binate/src/frame/codec/resume.rs:91-99 | appends exactly the RESUME encoding |
| ResumeCodec.ResumeFrame.PutPositions | binate/src/frame/codec/resume.rs:97-98 | appends both positions as big-endian `u64` |
| ResumeCodec.New | binate/src/frame/codec/resume.rs:48-67 | version and token as given; both positions masked to 63 bits, unchanged when they fit |
| ResumeCodec.Decoding | binate/src/frame/codec/resume.rs:116-132 | fewer than 6 bytes, or a token length beyond the bytes left, are incomplete; decoded positions are 63-bit |
| ResumeCodec.Decode | binate/src/frame/codec/resume.rs:116-132 | on a cursor: as `Decoding` |
| ResumeCodec.RoundTrip | binate/src/frame/codec/resume.rs:91-132 | RESUME round-trips when the token is under 65,536 bytes and both positions are 63-bit |
| ResumeCodec.BodyReadsBack | binate/src/frame/codec/resume.rs:116-132 | the body after the header decodes to the frame |
| ResumeOkCodec.ResumeOkFrame.Len | binate/src/frame/codec/resume_ok.rs:55-60 | `len` is the size `encode` writes |
| ResumeOkCodec.ResumeOkFrame.Encode | binate/src/frame/codec/resume_ok.rs:49-53 | appends exactly the RESUME_OK encoding |
| ResumeOkCodec.New | binate/src/frame/codec/resume_ok.rs:36-40 | the position masked to 63 bits, unchanged when it fits |
| ResumeOkCodec.Decoding | binate/src/frame/codec/resume_ok.rs:66-73 | incomplete exactly when fewer than 8 bytes remain; the decoded position is 63-bit and exactly 8 bytes are read |
| ResumeOkCodec.Decode | binate/src/frame/codec/resume_ok.rs:66-73 | on a cursor: as `Decoding` |
| ResumeOkCodec.RoundTrip | binate/src/frame/codec/resume_ok.rs:49-73 | RESUME_OK round-trips when the position is 63-bit |
| Frames.Frame.Type | binate/src/frame/mod.rs:133-178 | each variant is written and read as its own frame type, never EXT |
| Frames.Frame.Encode | binate/src/frame/mod.rs:69-86 | `encode` appends the wrapped frame's own encoding |
| Frames.LenIsEncodedSize | binate/src/frame/mod.rs:88-105 | `Frame::len` (`Frames.Frame.Len`) is the encoded size, except for SETUP without a token, where it is 2 more |
| Frames.Decoding | binate/src/frame/mod.rs:110-180 | fewer than 6 bytes are incomplete; an unknown type fails; a connection-scope kind on a nonzero stream fails with `InvalidStreamId`; a decoded frame has the header's type, and stream 0 when it is a connection-scope kind |
| Frames.Decode | binate/src/frame/mod.rs:110-180 | on a cursor: as `Decoding` |
| Frames.DecodeBody | binate/src/frame/mod.rs:133-178 | the dispatch to the kind's decoder, on a cursor |
| Frames.DecodingBodyKeepsType | binate/src/frame/mod.rs:133-178 | the dispatch yields a frame of the type it was given |
| Frames.DecodingAfterHeader | binate/src/frame/mod.rs:110-132 | after a valid header, `Frame::decode` is the kind's decoder on the body |
| Frames.RoundTrip | binate/src/frame/mod.rs:69-180 | every frame that meets its codec's conditions decodes back from its encoding with nothing left over |
| Frames.SetupRoundTrip | binate/src/frame/mod.rs:134-136 | a SETUP frame round-trips through `Frame` |
| Frames.ErrorRoundTrip | binate/src/frame/mod.rs:137-139 | an ERROR frame round-trips through `Frame` |
| Frames.LeaseRoundTrip | binate/src/frame/mod.rs:140-142 | a LEASE frame round-trips through `Frame` |
| Frames.KeepaliveRoundTrip | binate/src/frame/mod.rs:143-145 | a KEEPALIVE frame round-trips through `Frame` |
| Frames.RequestResponseRoundTrip | binate/src/frame/mod.rs:146-148 | a REQUEST_RESPONSE frame round-trips through `Frame` |
| Frames.RequestFnfRoundTrip | binate/src/frame/mod.rs:149-151 | a REQUEST_FNF frame round-trips through `Frame` |
| Frames.RequestStreamRoundTrip | binate/src/frame/mod.rs:152-154 | a REQUEST_STREAM frame round-trips through `Frame` |
| Frames.RequestNRoundTrip | binate/src/frame/mod.rs:158-160 | a REQUEST_N frame round-trips through `Frame` |
| Frames.CancelRoundTrip | binate/src/frame/mod.rs:161-163 | a CANCEL frame round-trips through `Frame` |
| Frames.PayloadRoundTrip | binate/src/frame/mod.rs:164-166 | a PAYLOAD frame round-trips through `Frame` |
| Frames.MetadataPushRoundTrip | binate/src/frame/mod.rs:167-169 | a METADATA_PUSH frame round-trips through `Frame` |
| Frames.ResumeRoundTrip | binate/src/frame/mod.rs:170-172 | a RESUME frame round-trips through `Frame` |
| Frames.ResumeOkRoundTrip | binate/src/frame/mod.rs:173-175 | a RESUME_OK frame round-trips through `Frame` |
| Frames.MaxValues | binate/src/frame/mod.rs:26-30 | `MAX_U31` and `MAX_U63` are the all-ones values shifted right by one |
| Frames.RequestFnfExample | binate/src/frame/mod.rs:189-215 | the REQUEST_FNF frame of the module's example encodes and decodes back |
| MimeTypes.IntoStr | binate/src/mimetype.rs:64-129 | corrected `into`: each variant's name is the string `from` maps to it, and only UNPARSEABLE has the empty name |
| MimeTypes.IntoStrAsWritten | binate/src/mimetype.rs:120-129 | as written: UNPARSEABLE gives the empty string |
| MimeTypes.IntoStrAsWrittenNeverReturns | binate/src/mimetype.rs:120-129 | as written: `t.into()` calls itself for every other variant, so no amount of fuel returns |
| MimeTypes.FromStrNamesItsInput | binate/src/mimetype.rs:64-118 | `from` recognises a string only when it is exactly the name of the variant it returns |
| MimeTypes.IntoStrIsListed | binate/src/mimetype.rs:64-118 | every variant but UNPARSEABLE has a listed name |
| MimeTypes.UnlistedIsUnparseable | binate/src/mimetype.rs:64-118 | a string that names no variant maps to UNPARSEABLE |
| MimeTypes.IntoStrOfFromStr | binate/src/mimetype.rs:64-129 | a listed name is recognised, and maps to the variant whose name it is: `into(from(v)) == v` |
| MimeTypes.FromStrInjective | binate/src/mimetype.rs:64-118 | two strings `from` maps to the same variant other than UNPARSEABLE are equal |
| MimeTypes.FromStrOfIntoStr | binate/src/mimetype.rs:64-129 | `from(into(t)) == t` for every variant |
| MimeTypes.IntoStrInjective | binate/src/mimetype.rs:64-118 | distinct variants have distinct names |
| MimeTypes.LookupExamples | binate/src/mimetype.rs:134-140 | `application/json` is found; `application/binary` and `unparsable` are UNPARSEABLE, whose name is empty |
| StreamIds.Attempt | binate/src/connection/stream_id.rs:34-35 | every attempted id is at most `STREAM_ID_MASK` and keeps the counter's parity |
| StreamIds.FreeAt | binate/src/connection/stream_id.rs:31-43 | an attempt that finds a free id shows the loop ends |
| StreamIds.StreamIdProvider.NewForClient | binate/src/connection/stream_id.rs:19-23 | a client counter starts at 1 |
| StreamIds.StreamIdProvider.NewForServer | binate/src/connection/stream_id.rs:25-29 | a server counter starts at 2 |
| StreamIds.StreamIdProvider.New | binate/src/connection/stream_id.rs:45-47 | the counter starts at the given value |
| StreamIds.StreamIdProvider.NextStreamId | binate/src/connection/stream_id.rs:31-43 | returns the first attempted id not in the store: it is free, 31-bit and of the counter's parity, every earlier attempt was taken, and the counter advanced by 2 per attempt, wrapping |
| StreamIds.ClientIds | binate/src/connection/stream_id.rs:64-70 | a client gets 1, then 3 |
| StreamIds.ServerIds | binate/src/connection/stream_id.rs:72-78 | a server gets 2, then 4 |
| StreamIds.ClientIdsSkippingThree | binate/src/connection/stream_id.rs:80-87 | with 3 in use, a client gets 1, then 5 |
| StreamIds.WrappingIds | binate/src/connection/stream_id.rs:89-106 | from `i32::MAX` or -1 the ids are 0x7FFFFFFF, then 1 |
| RequestCounters.RequestCounter.constructor | binate/src/connection/counter.rs:11-14 | the count starts masked to 31 bits, so it is never negative |
| RequestCounters.RequestCounter.Dec | binate/src/connection/counter.rs:16-19 | returns the old count and lowers it by one, wrapping |
| RequestCounters.RequestCounter.Add | binate/src/connection/counter.rs:26-29 | adds `n as i32` with wrap-around, the exact sum when it fits |
| RequestCounters.RequestCounter.Load | binate/src/connection/counter.rs:30-34 | `load` returns the stored count |
| RequestCounters.RequestCounter.IsZero | binate/src/connection/counter.rs:20-24 | `is_zero` holds exactly when the stored count is 0 |
| RequestCounters.Scenarios | binate/src/connection/counter.rs:49-67 | `new(42)` loads 42; `dec` returns 42 and leaves 41; `add(8)` leaves 50 |
| RequestCounters.DecToZero | binate/src/connection/counter.rs:21-24 | `new(1)` then `dec` is zero |
| Errors.Code.Value | binate/src/error.rs:54-81 | each code's discriminant is one of the ERROR frame's connection or stream codes |
| Errors.Code.Kind | binate/src/error.rs:26-44 | each code names a protocol kind |
| Errors.Error.IsDecode | binate/src/error.rs:96-99 | `is_decode`: a decode error has no code and is not an I/O error |
| Errors.Error.IsProtocol | binate/src/error.rs:101-117 | `is_protocol` holds exactly of the kinds other than decode and I/O |
| Errors.Error.IsSetup | binate/src/error.rs:119-125 | `is_setup` holds exactly of the kinds whose codes are 0x001 to 0x003 |
| Errors.Error.IsInvalidSetup | binate/src/error.rs:127-130 | holds exactly when the kind's code is INVALID_SETUP |
| Errors.Error.IsUnsupportedSetup | binate/src/error.rs:132-135 | holds exactly when the kind's code is UNSUPPORTED_SETUP |
| Errors.Error.IsRejectedSetup | binate/src/error.rs:137-140 | holds exactly when the kind's code is REJECTED_SETUP |
| Errors.Error.IsRejectedResume | binate/src/error.rs:142-145 | holds exactly when the kind's code is REJECTED_RESUME |
| Errors.Error.IsConnectionError | binate/src/error.rs:147-153 | holds exactly when the kind's code is CONNECTION_ERROR |
| Errors.Error.IsConnectionClose | binate/src/error.rs:155-161 | holds exactly when the kind's code is CONNECTION_CLOSE |
| Errors.Error.IsApplicationError | binate/src/error.rs:163-166 | holds exactly when the kind's code is APPLICATION_ERROR |
| Errors.Error.IsRejected | binate/src/error.rs:168-171 | holds exactly when the kind's code is REJECTED |
| Errors.Error.IsCancel | binate/src/error.rs:173-176 | holds exactly when the kind's code is CANCELED |
| Errors.Error.IsInvalid | binate/src/error.rs:178-181 | holds exactly when the kind's code is INVALID |
| Errors.Classification | binate/src/error.rs:97-181 | a setup error is a protocol error; decode and protocol exclude each other; I/O is neither; exactly one single-code predicate holds of a protocol error and none of any other |
| Errors.CodeOf | binate/src/error.rs:26-81 | a kind has a code exactly when it is a protocol kind |
| Errors.KindOfCodeOf | binate/src/error.rs:26-81 | codes and protocol kinds correspond one to one |
| Errors.CodesDistinct | binate/src/error.rs:54-81 | distinct codes have distinct kinds and distinct values |
| Errors.ConnectionCodes | binate/src/error.rs:54-81 | the codes that belong on stream 0 are exactly the setup, resume and connection ones |
| Errors.FromDecodeError | binate/src/error.rs:229-234 | a decode error becomes a decode-kind error with a source |
| Errors.FromIoError | binate/src/error.rs:236-240 | an I/O error becomes an I/O-kind error with a source |

## Left out

- REQUEST_CHANNEL's codec (`frame/codec/request_channel.rs`) is not part of this model. `Frame` takes its encoding and decoding as parameters, its `len` is taken to be its encoding's size, and `Frames.RoundTrip` does not cover it.
- `Frames.Decoding` excludes an EXT header by precondition: that arm of `Frame::decode` is `unimplemented!()` and panics.
- `Frames.Frame.ReadsBack` gathers each codec's round-trip conditions. A frame outside them, such as a SETUP with the RESUME flag and no token, is not claimed to round-trip.
- Sockets, connections and the runtime (`connection/socket.rs`, `connection/conn.rs`, `rsocket.rs`) are not part of this model.
- The counters are atomics. The model is single-threaded, and the loom model of concurrent use is left out.
- StreamIds.StreamIdProvider.NextStreamId requires that some attempt finds a free id. Without one the source loops forever.
- `DashMap` is a `set<u32>` of keys, since only `contains_key` is used.
- `PayloadChunks::len` divides in `f32`. The model uses exact integer ceiling division, so the rounding of `f32` is not modelled.
- The `data_utf8`, `metadata_utf8` and `metadata_mimetype` accessors are left out. They decode UTF-8 and return `None` on failure.
- The plain field getters are left out; they return the fields unchanged.
- Durations are left out. `ttl` and the keepalive fields are modelled as their millisecond counts.
- `Display`, `Debug` and `description` on `Error` are left out, because they only produce text. In that text, `Rejected` is labelled `CONNECTION_ERROR (0x00000202)`.
- Errors.Error keeps only whether a source is attached, not the source error itself.
- The `debug_assert!` checks of the constructors are left out. They vanish in release builds, so the model masks exactly as the release code does.
- A Rust `assert!` that panics on bad input is modelled as a precondition, so the model promises nothing for inputs that would panic. This covers the range check of `U24::from_u32` and `U24::from_usize` (and so of every metadata length a codec writes as a `U24`), the 65,535-byte limit of `set_resume_token`, and the 256-byte limit of the mimetype setters of the SETUP builder.
- The `bytes` crate's `BytesMut`, `Buf` and `Bytes` are modelled only as far as the codecs use them: append, read big-endian, copy out.

## Findings

| source | as written | input that shows it | evidently intended | confidence | as-written member | corrected member |
|---|---|---|---|---|---|---|
| binate/src/frame/codec/setup.rs:164-189 | `len` starts at 20, which counts the 2-byte token length even when no token is written | the default builder's frame: `len` is 61, `encode` writes 59 bytes | count the token length only when a token is present | not executed | SetupCodec.SetupFrame.Len, SetupCodec.DefaultFrameLenOvercounts | SetupCodec.SetupFrame.EncodedLen, SetupCodec.BuiltFrameRoundTrip |
| binate/src/frame/codec/setup.rs:315-344 | the mimetype setters accept 256 bytes, but `encode` writes the length as `len() as u8`, which is 0 | a 256-byte metadata mimetype: it reads back as empty, and its bytes are then read as the data mimetype | accept at most 255 bytes | not executed | SetupCodec.SetupFrameBuilder.SetMetadataMimetype, SetupCodec.MimetypeOf256BytesReadsAsEmpty | SetupCodec.SetupFrameBuilder.SetMetadataMimetypeBounded, SetupCodec.EatMimetypeOf |
| binate/src/mimetype.rs:120-129 | `From<WellKnownMimeType> for &str` answers every variant except UNPARSEABLE with `t.into()`, which is the same conversion again | `APPLICATION_JSON.into()`: it recurses until the stack overflows | return the name that `From<&str>` maps to the variant | not executed | MimeTypes.IntoStrAsWritten, MimeTypes.IntoStrAsWrittenNeverReturns | MimeTypes.IntoStr, MimeTypes.FromStrOfIntoStr |
