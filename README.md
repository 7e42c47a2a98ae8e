# recisdb-proxy-rs: a verified model of the core

This project is a Dafny model of the parts of recisdb-proxy-rs that handle bytes, tables and channels. It also holds proofs about them. recisdb-proxy-rs shares Japanese digital TV tuners (BonDriver DLLs) over the network. A proxy server owns the tuners, and a client DLL poses as a local BonDriver to recording software.

The model covers six parts of the system.

- **The wire protocol** (`recisdb-protocol`).
  - A frame is "BNDP", a little-endian u32 payload length, a little-endian u16 message type, then the payload.
  - The model encodes and decodes every client and server message, the frame and its header, the message-type and error codes, and the classification of network ids (NIDs) after ARIB TR-B14.
  - Modules: `Bytes`, `Text`, `Utf8`, `ProtocolTypes`, `ProtocolErrors`, `BroadcastRegion`, `Codec`, `Messages`, `MessageLaws`.
- **MPEG-TS and PSI parsing**, after ISO/IEC 13818-1 and ARIB STD-B10.
  - Packets and their iterator, the reassembly of sections, the MPEG-2 CRC-32, and the PAT, PMT, NIT and SDT parsers with their descriptors.
  - The proxy's stream analyzer, its minimal channel-scan parser, its continuity-counter quality counter, and the realignment of the B25 descrambler's input.
  - Modules: `TsPackets`, `Psi`, `Crc`, `Pat`, `Pmt`, `Nit`, `Sdt`, `Descriptors`, `Analyzer`, `StreamQuality`, `MinimalTsParsing`, `B25Resync`.
- **Client-side TS delivery.**
  - The client's single-producer single-consumer ring buffer (`RingBuffer.TsRingBuffer`, over an `array`).
  - The exported BonDriver entry points that carve 188-byte-aligned chunks out of it, and the name caches (`BonDriverExports`).
- **Channel bookkeeping.**
  - The generation of virtual tuning spaces from the channel list (`SpaceGeneration`).
  - The merge of scan results into the channel table, held in memory instead of SQLite (`ChannelTable`).
  - The flattening of scan results (`ScanResults`) and the command-line scan list (`ScanChannelList`).
- **The native driver bridge.**
  - The C++ capability probes and the wrappers that turn a fault into a sentinel value (`BonDriverBridge`).
  - The Rust wrapper that derives the interface version, maps results to I/O errors and reads UTF-16 names (`WindowsBonDriver`).
- **Small helpers.**
  - The key under which a tuner is shared (`ChannelKeys`).
  - The client's INI configuration (`ClientConfig`).

Code that updates state in place is modelled by classes and methods:

- the ring buffer, the exported-function state, the analyzers, the section collector, the B25 stash and the channel database;
- the loops of the parsers and generators.

Each of these is proved against a pure function, and the properties are lemmas about that function.

## Model

| member | source | states |
|---|---|---|
| ProtocolTypes.BandCode | recisdb-protocol/src/types.rs:28-43 | each band's stored discriminant is one of 0 to 6 |
| ProtocolTypes.BandOfCode | recisdb-protocol/src/types.rs:28-43 | exactly the codes 0 to 6 name a band, and the band named has that discriminant |
| ProtocolTypes.BandCodeRoundTrip | recisdb-protocol/src/types.rs:28-43 | every band is recovered from its discriminant |
| ProtocolTypes.BandFromNid | recisdb-protocol/src/types.rs:57-94 | BS iff NID 4, CS iff 6 or 7, 4K iff 0xB or 0xC, SKY iff 0xA, 1 or 3, CATV iff one of the cable NIDs, terrestrial iff 0x7800..0x7FFF, Other for the rest |
| ProtocolTypes.DisplayName | recisdb-protocol/src/types.rs:97-107 | every band has a non-empty Japanese display name |
| ProtocolTypes.NameEn | recisdb-protocol/src/types.rs:110-120 | every band has a non-empty English name |
| ProtocolTypes.DisplayNamesDistinct | recisdb-protocol/src/types.rs:97-120 | distinct bands have distinct Japanese names and distinct English names |
| ProtocolTypes.TypeOfCode | recisdb-protocol/src/types.rs:206-246 | an unknown code is returned as the error value itself |
| ProtocolTypes.TypeOfCodeSound | recisdb-protocol/src/types.rs:206-252 | an accepted code is the code of the message type it yields |
| ProtocolTypes.TypeOfCodeSoundLow | recisdb-protocol/src/types.rs:209-224 | the same, for the client request codes |
| ProtocolTypes.TypeOfCodeSoundMid | recisdb-protocol/src/types.rs:209-239 | the same, for the acknowledgement codes |
| ProtocolTypes.TypeOfCodeSoundHigh | recisdb-protocol/src/types.rs:209-243 | the same, for the data, error and keep-alive codes |
| ProtocolTypes.TypeCodeRoundTrip | recisdb-protocol/src/types.rs:206-252 | every message type is recovered from its code (the round trip the module's test checks for five types, lines 650-665) |
| ProtocolTypes.TypeOfCodeRejects | recisdb-protocol/src/types.rs:206-246 | a code is rejected exactly when no message type carries it |
| ProtocolTypes.TypeCodeInjective | recisdb-protocol/src/types.rs:126-204 | distinct message types have distinct codes |
| ProtocolTypes.ClientType | recisdb-protocol/src/types.rs:364-387 | a client message never carries a server message type |
| ProtocolTypes.ServerType | recisdb-protocol/src/types.rs:389-412 | a server message always carries a server message type |
| ProtocolTypes.ClientTypeDeterminesVariant | recisdb-protocol/src/types.rs:364-387 | two client messages with the same type are the same variant, apart from the group forms |
| ProtocolTypes.GroupVariantsShareCodes | recisdb-protocol/src/types.rs:370-375 | the group forms of OpenTuner and SetChannelSpace carry the plain forms' codes 0x0100 and 0x0106 |
| ProtocolTypes.NewChannelInfo | recisdb-protocol/src/types.rs:455-474 | the three identifiers are set and every optional field is empty |
| ProtocolTypes.UniqueKeyRefinesServiceKey | recisdb-protocol/src/types.rs:476-485 | two records share a unique key iff they share a service key and a manual sheet |
| ProtocolTypes.ShouldCheckEnabled | recisdb-protocol/src/types.rs:524-534 | the enabled flag is checked iff the selection is logical, i.e. not physical |
| ProtocolTypes.FromChannelInfo | recisdb-protocol/src/types.rs:624-646 | identifiers and network fields copied; a missing name becomes "" and is repeated as display name; a missing service type becomes 0x01 |
| ProtocolErrors.ErrorCodeValue | recisdb-protocol/src/error.rs:86-107 | every error code's wire value is at most 8 |
| ProtocolErrors.ErrorCodeOf | recisdb-protocol/src/error.rs:109-123 | a value reads as Unknown iff it is 1 or above 8; any other value reads as the code carrying it |
| ProtocolErrors.ErrorCodeRoundTrip | recisdb-protocol/src/error.rs:109-129 | every error code is recovered from its wire value |
| ProtocolErrors.SuccessOnlyZero | recisdb-protocol/src/error.rs:109-135 | only the value 0 reads as success; every value up to 8 survives the trip through ErrorCode |
| BroadcastRegion.RegionIdFromNid | recisdb-protocol/src/broadcast_region.rs:43-68 | a region id, when there is one, is in 1..62 and comes from a NID in 0x7800..0x7FF0 |
| BroadcastRegion.RegionIdInvertsFormula | recisdb-protocol/src/broadcast_region.rs:43-68 | every NID of the ARIB formula 0x7FF0 - 0x10 * region + broadcaster (with the prefecture-sharing offset) maps back to its region |
| BroadcastRegion.RegionIdChecked | recisdb-protocol/src/broadcast_region.rs:52-61 | the source's unsigned subtraction overflows exactly for the NIDs 0x7BF1..0x7BFF |
| BroadcastRegion.RegionIdOverflowExample | recisdb-protocol/src/broadcast_region.rs:52-61 | NID 0x7BF8 overflows as written, and the corrected computation gives None |
| BroadcastRegion.RegionIdAgreement | recisdb-protocol/src/broadcast_region.rs:43-68 | where the subtraction does not overflow the source's computation agrees with the model, and a wrapping subtraction agrees everywhere |
| BroadcastRegion.PrefectureOfRegion | recisdb-protocol/src/broadcast_region.rs:77-162 | a prefecture exists iff the id is 1..6 or 10..62, and it is non-empty |
| BroadcastRegion.RegionOfId | recisdb-protocol/src/broadcast_region.rs:165-192 | an id outside the table gives Unknown carrying that id |
| BroadcastRegion.RegionAndPrefectureAgree | recisdb-protocol/src/broadcast_region.rs:77-192 | the region table and the prefecture table cover the same ids |
| BroadcastRegion.WideAreaHome | recisdb-protocol/src/broadcast_region.rs:79-85 | each wide-area id stands for a prefecture id in 10..62 |
| BroadcastRegion.WideAreaConsistent | recisdb-protocol/src/broadcast_region.rs:79-192 | a wide-area id names the same prefecture as its home id and lies in the same region |
| BroadcastRegion.RegionDisplayName | recisdb-protocol/src/broadcast_region.rs:225-240 | every region has a non-empty Japanese name |
| BroadcastRegion.RegionNameEn | recisdb-protocol/src/broadcast_region.rs:243-258 | every region has a non-empty English name |
| BroadcastRegion.RegionNamesDistinct | recisdb-protocol/src/broadcast_region.rs:225-258 | each known region has its own Japanese and English name; every unknown region shares "その他" and "Unknown" |
| BroadcastRegion.ClassifyNid | recisdb-protocol/src/broadcast_region.rs:290-318 | BS iff NID 4, CS iff 6, 7 or 10, terrestrial otherwise; a region only for terrestrial NIDs, Unknown(nid) when the NID has no region id |
| BroadcastRegion.ClassifyFormulaNid | recisdb-protocol/src/broadcast_region.rs:290-318 | every NID of the ARIB formula is terrestrial in the known region of its id |
| BroadcastRegion.SpaceName | recisdb-protocol/src/broadcast_region.rs:351-363 | "BS", "CS", "地デジ (region)" or "地デジ" |
| BroadcastRegion.PrefectureName | recisdb-protocol/src/broadcast_region.rs:380-382 | a prefecture is only found for NIDs in 0x7800..0x7FF0 |
| BroadcastRegion.PrefectureNameCases | recisdb-protocol/src/broadcast_region.rs:380-382 | none for the satellite NIDs nor for region ids 7..9; every other formula NID has one |
| Codec.BoolByte | recisdb-protocol/src/codec.rs:47 | a flag byte is nonzero iff the flag is set |
| Codec.I32Le | recisdb-protocol/src/codec.rs:422 | an i32 is written as four bytes |
| Codec.I32LeRoundTrip | recisdb-protocol/src/codec.rs:422-466 | `get_i32_le` reads back what `put_i32_le` wrote, for every i32 |
| Codec.LengthField | recisdb-protocol/src/codec.rs:469-473 | the u16 length field is the UTF-8 length whenever that fits in 16 bits (`as u16` truncates otherwise) |
| Codec.EncodeString | recisdb-protocol/src/codec.rs:469-473 | a string takes two length bytes plus its UTF-8 bytes |
| Codec.DecodeString | recisdb-protocol/src/codec.rs:475-492 | fewer than two bytes is IncompleteFrame(2, n); a decoded string consumes its length field |
| Codec.DecodeStringSound | recisdb-protocol/src/codec.rs:475-492 | a decoded string is exactly the text of the bytes its length field covers, and the rest is what follows them |
| Codec.StringRoundTrip | recisdb-protocol/src/codec.rs:469-492 | a string whose UTF-8 form fits the length field decodes back to itself, leaving any following bytes untouched |
| Codec.EncodeOptString | recisdb-protocol/src/codec.rs:220-231 | None is written as the marker 0xFFFF alone |
| Codec.DecodeOptString | recisdb-protocol/src/codec.rs:233-254 | fewer than two bytes is IncompleteFrame; the marker 0xFFFF reads as None and consumes two bytes |
| Codec.OptStringRoundTrip | recisdb-protocol/src/codec.rs:220-254 | None and every string shorter than 65535 UTF-8 bytes decode back to themselves |
| Codec.OptStringMarkerClash | recisdb-protocol/src/codec.rs:220-254 | a string of exactly 65535 UTF-8 bytes is written with the None marker as its length and decodes as None, leaving its bytes unread |
| Codec.DecodeOptU32 | recisdb-protocol/src/codec.rs:268-287 | an empty input or a present value without four bytes is IncompleteFrame; any nonzero presence byte means a value follows |
| Codec.OptU32RoundTrip | recisdb-protocol/src/codec.rs:256-287 | every optional u32 decodes back to itself |
| Codec.DecodeOptU16 | recisdb-protocol/src/codec.rs:301-320 | as for u32, with two value bytes |
| Codec.OptU16RoundTrip | recisdb-protocol/src/codec.rs:289-320 | every optional u16 decodes back to itself |
| Codec.DecodeOptU8 | recisdb-protocol/src/codec.rs:334-353 | as for u32, with one value byte |
| Codec.OptU8RoundTrip | recisdb-protocol/src/codec.rs:322-353 | every optional u8 decodes back to itself |
| Codec.BroadcastTypeByte | recisdb-protocol/src/codec.rs:361-365 | a broadcast type is written as 0, 1 or 2 |
| Codec.BroadcastTypeOfByte | recisdb-protocol/src/codec.rs:387-391 | the decoder reads 0 and 1 as named and anything else as CS, which inverts the writer for 0..2 |
| Codec.DecodeFilterTail | recisdb-protocol/src/codec.rs:377-409 | the ids are kept and at least one byte is consumed |
| Codec.DecodeFilter | recisdb-protocol/src/codec.rs:374-410 | a decoded filter consumes at least one byte |
| Codec.FilterRoundTrip | recisdb-protocol/src/codec.rs:355-410 | every channel filter decodes back to itself |
| Codec.FilterTailRoundTrip | recisdb-protocol/src/codec.rs:358-409 | the broadcast-type field and the enabled flag decode back to themselves |
| Codec.DecodeChannelInfoTail | recisdb-protocol/src/codec.rs:437-466 | the fields from the service type on consume at least one byte |
| Codec.DecodeChannelInfoLast | recisdb-protocol/src/codec.rs:444-466 | the space name, display name and priority consume at least one byte |
| Codec.DecodeChannelInfo | recisdb-protocol/src/codec.rs:425-467 | fewer than six bytes is IncompleteFrame(6, n); a decoded record consumes at least one byte |
| Codec.DecodeChannelInfoNames | recisdb-protocol/src/codec.rs:435-436 | the channel name and network name consume at least one byte |
| Codec.ChannelInfoTailRoundTrip | recisdb-protocol/src/codec.rs:417-466 | the fields from the service type on decode back to themselves |
| Codec.ChannelInfoLastRoundTrip | recisdb-protocol/src/codec.rs:420-466 | the last three fields decode back to themselves |
| Codec.ChannelInfoIdsRoundTrip | recisdb-protocol/src/codec.rs:413-434 | the three u16 identifiers read back in order |
| Codec.ChannelInfoRoundTrip | recisdb-protocol/src/codec.rs:412-467 | every channel record whose strings fit their length fields decodes back to itself, leaving following bytes untouched |
| Codec.ChannelInfoNamesRoundTrip | recisdb-protocol/src/codec.rs:415-436 | the encoded channel and network names decode back and hand over to the remaining fields |
| Codec.EncodeRecordList | recisdb-protocol/src/codec.rs:195-197 | the loop's output is the concatenation of the encoded records, in order |
| Codec.EncodeChannelList | recisdb-protocol/src/codec.rs:192-197 | the list payload is the concatenation of the encoded channel records |
| Codec.DecodeRecords | recisdb-protocol/src/codec.rs:845-849 | a successful read yields exactly `count` records |
| Codec.DecodeRecordsFrom | recisdb-protocol/src/codec.rs:847-849 | one record then the rest: `count` records in all |
| Codec.DecodeRecordList | recisdb-protocol/src/codec.rs:845-849 | the loop returns what reading `count` records in order gives, stopping at the first error |
| Codec.DecodeChannelList | recisdb-protocol/src/codec.rs:845-849 | the list decoder reads `count` channel records in order |
| Codec.ChannelInfosRoundTrip | recisdb-protocol/src/codec.rs:192-197 | a list of well-formed channel records read back with its own count gives the same list and the following bytes |
| Codec.RecordsRoundTrip | recisdb-protocol/src/codec.rs:195-197 | records that each read back after any bytes, encoded one after another, read back with their count as the same list in order, leaving what follows (see also codec.rs lines 846-849) |
| Messages.I64Le | recisdb-protocol/src/codec.rs:193 | an i64 is written as eight bytes |
| Messages.I64LeRoundTrip | recisdb-protocol/src/codec.rs:193 | `get_i64_le` reads back what `put_i64_le` wrote, for every i64 (see also codec.rs line 845) |
| Messages.CountField | recisdb-protocol/src/codec.rs:194 | the u32 count field is the list length whenever that fits in 32 bits (`as u32` truncates otherwise) |
| Messages.ListAckPayload | recisdb-protocol/src/codec.rs:192-197 | a list response payload holds at least the timestamp and the count |
| Messages.EncodeClient | recisdb-protocol/src/codec.rs:21-113 | a request encodes iff its payload length fits the frame limit; the payload follows the header unchanged, and the header reads back as the request's own type and the payload's length |
| Messages.EncodeServer | recisdb-protocol/src/codec.rs:116-202 | a response encodes iff its payload length fits the frame limit; the payload follows the header unchanged, and the header reads back as the response's own type and the payload's length |
| Messages.DecodeClient | recisdb-protocol/src/codec.rs:533-684 | a payload shorter than its type's fixed part is IncompleteFrame with the needed and the available length; a response type read as a request is UnknownMessageType with its code |
| Messages.DecodeServer | recisdb-protocol/src/codec.rs:688-874 | a payload shorter than its type's fixed part is IncompleteFrame with the needed and the available length; a request type read as a response is UnknownMessageType with its code |
| Messages.EncodeFrame | recisdb-protocol/src/codec.rs:205-218 | the frame is accepted iff the (u32-truncated) payload length is within MAX_FRAME_SIZE, else FrameTooLarge with that length; an accepted frame is the magic, the header and the payload unchanged |
| Messages.DecodeHeader | recisdb-protocol/src/codec.rs:503-529 | Ok(None) iff fewer than ten bytes; a wrong magic is InvalidMagic with the four bytes; an accepted header carries the magic, a length within the limit and the type whose code is in the header |
| Messages.FrameRoundTrip | recisdb-protocol/src/codec.rs:205-218 | a frame whose payload fits is read back by the header decoder with its length and type (see also codec.rs lines 503-529) |
| Messages.DecodeHeaderAccepts | recisdb-protocol/src/codec.rs:503-529 | a header with the magic, a length within the limit and a known type code is accepted |
| Messages.FrameFields | recisdb-protocol/src/codec.rs:205-218 | an encoded frame starts with the magic, the payload length and the type code |
| Messages.DecodeOpenTuner | recisdb-protocol/src/codec.rs:549-574 | a decoded OpenTuner request never has an empty path |
| Messages.DecodeSelectRequest | recisdb-protocol/src/codec.rs:636-658 | the network and stream ids are read from the first four bytes |
| Messages.DecodeListRequest | recisdb-protocol/src/codec.rs:659-672 | a filter is present iff the flag byte is nonzero |
| Messages.DecodeNameAck | recisdb-protocol/src/codec.rs:763-770 | the name responses decode to the variant of their type |
| Messages.DecodeListAck | recisdb-protocol/src/codec.rs:837-851 | the list response holds exactly as many channels as its count field says |
| Messages.DecodeErrorMessage | recisdb-protocol/src/codec.rs:852-868 | the error code is the first u16 of the payload |
| Messages.DecodeSelectAck | recisdb-protocol/src/codec.rs:817-836 | the success flag and error code are the ones read before the optional fields |
| MessageLaws.DecodeClientType | recisdb-protocol/src/codec.rs:533-684 | a decoded client message has the header's type and is never a group variant |
| MessageLaws.CompositeRequestType | recisdb-protocol/src/codec.rs:549-672 | the same, for OpenTuner, SelectLogicalChannel and GetChannelList |
| MessageLaws.DecodeClientTypeFixed | recisdb-protocol/src/codec.rs:538-635 | the same, for the fixed-size requests |
| MessageLaws.DecodeServerType | recisdb-protocol/src/codec.rs:688-874 | a decoded server message has the header's type |
| MessageLaws.ListAckType | recisdb-protocol/src/codec.rs:837-851 | the same, for the list response |
| MessageLaws.ErrorType | recisdb-protocol/src/codec.rs:852-868 | the same, for the error response |
| MessageLaws.SelectAckType | recisdb-protocol/src/codec.rs:817-836 | the same, for the selection response |
| MessageLaws.NameAckType | recisdb-protocol/src/codec.rs:763-770 | the same, for the name responses |
| MessageLaws.DecodeServerTypeFixed | recisdb-protocol/src/codec.rs:693-816 | the same, for the fixed-size responses |
| MessageLaws.SetChannelRoundTrip | recisdb-protocol/src/codec.rs:44-48 | SetChannel decodes back to itself (see also codec.rs lines 576-587) |
| MessageLaws.SetChannelSpaceRoundTrip | recisdb-protocol/src/codec.rs:49-54 | SetChannelSpace decodes back to itself (see also codec.rs lines 588-600) |
| MessageLaws.SelectLogicalChannelRoundTrip | recisdb-protocol/src/codec.rs:86-98 | SelectLogicalChannel decodes back to itself, with or without a service id (see also codec.rs lines 636-658) |
| MessageLaws.SelectRequestPayloadIs | recisdb-protocol/src/codec.rs:86-98 | the request is the two ids followed by the optional service id |
| MessageLaws.ClientDispatch | recisdb-protocol/src/codec.rs:549-672 | once the fixed part is present the composite requests are read by their own decoders |
| MessageLaws.GetChannelListRoundTrip | recisdb-protocol/src/codec.rs:99-111 | GetChannelList decodes back to itself, with or without a filter (see also codec.rs lines 659-672) |
| MessageLaws.ListRequestFieldsRoundTrip | recisdb-protocol/src/codec.rs:99-111 | the list request payload is non-empty and its fields decode back (see also codec.rs lines 659-672) |
| MessageLaws.ClientRoundTrip | recisdb-protocol/src/codec.rs:21-113 | every client message other than the group forms and an empty OpenTuner path decodes back to itself at its own type (see also codec.rs lines 533-684) |
| MessageLaws.OpenTunerRoundTrip | recisdb-protocol/src/codec.rs:31-35 | OpenTuner with a non-empty path that fits the length field decodes back to itself (see also codec.rs lines 549-574) |
| MessageLaws.SimpleRequestRoundTrip | recisdb-protocol/src/codec.rs:25-85 | the requests whose payload is empty or fixed integers decode back to themselves (see also codec.rs lines 538-635) |
| MessageLaws.OpenTunerWithGroupReadsAsOpenTuner | recisdb-protocol/src/codec.rs:36-40 | OpenTunerWithGroup shares OpenTuner's code and payload, so it is read back as OpenTuner (see also codec.rs lines 549-574) |
| MessageLaws.EmptyTunerPathRejected | recisdb-protocol/src/codec.rs:569-572 | an empty tuner path is refused with a decode error, so OpenTuner("") does not round-trip |
| MessageLaws.SelectAckFieldsRoundTrip | recisdb-protocol/src/codec.rs:179-191 | the optional fields of the selection response decode back (see also codec.rs lines 817-836) |
| MessageLaws.SelectAckRoundTrip | recisdb-protocol/src/codec.rs:179-191 | SelectLogicalChannelAck decodes back to itself (see also codec.rs lines 817-836) |
| MessageLaws.SelectAckPayloadIs | recisdb-protocol/src/codec.rs:179-191 | the selection response is the flag, the code and the optional fields |
| MessageLaws.ListAckPrefix | recisdb-protocol/src/codec.rs:192-194 | timestamp and count read back from the front of a list response (see also codec.rs lines 838-846) |
| MessageLaws.ListAckFieldsRoundTrip | recisdb-protocol/src/codec.rs:192-197 | the list response payload decodes back (see also codec.rs lines 837-851) |
| MessageLaws.ListAckRoundTrip | recisdb-protocol/src/codec.rs:192-197 | GetChannelListAck decodes back to itself (see also codec.rs lines 837-851) |
| MessageLaws.ListAckPayloadIs | recisdb-protocol/src/codec.rs:192-197 | the list response payload is timestamp, count and records |
| MessageLaws.ListAckDispatch | recisdb-protocol/src/codec.rs:837-851 | a list response of at least twelve bytes goes to the list decoder |
| MessageLaws.ErrorFieldsRoundTrip | recisdb-protocol/src/codec.rs:173-177 | the error response's code and text decode back (see also codec.rs lines 852-868) |
| MessageLaws.ErrorRoundTrip | recisdb-protocol/src/codec.rs:173-177 | Error decodes back to itself (see also codec.rs lines 852-868) |
| MessageLaws.ErrorPayloadIs | recisdb-protocol/src/codec.rs:173-177 | the error response is the code followed by the text |
| MessageLaws.SelectAckDispatch | recisdb-protocol/src/codec.rs:817-836 | a selection response of at least three bytes goes to the optional-field decoder with its flag and code |
| MessageLaws.ErrorDispatch | recisdb-protocol/src/codec.rs:852-868 | an error response of at least four bytes goes to the error decoder |
| MessageLaws.FlagCodeAckRoundTrip | recisdb-protocol/src/codec.rs:139-172 | the acknowledgements made of a flag and an error code decode back (see also codec.rs lines 731-816) |
| MessageLaws.FixedAckRoundTrip | recisdb-protocol/src/codec.rs:120-172 | the other fixed-size responses decode back (see also codec.rs lines 693-816) |
| MessageLaws.HelloAckRoundTrip | recisdb-protocol/src/codec.rs:120-123 | HelloAck decodes back to itself (see also codec.rs lines 693-703) |
| MessageLaws.OpenTunerAckRoundTrip | recisdb-protocol/src/codec.rs:127-135 | OpenTunerAck decodes back to itself (see also codec.rs lines 705-720) |
| MessageLaws.SignalLevelAckRoundTrip | recisdb-protocol/src/codec.rs:147-149 | GetSignalLevelAck decodes back to itself, bit for bit (see also codec.rs lines 753-762) |
| MessageLaws.NameAckRoundTrip | recisdb-protocol/src/codec.rs:150-155 | the name responses decode back to themselves (see also codec.rs lines 763-770) |
| MessageLaws.NameDispatch | recisdb-protocol/src/codec.rs:763-770 | both name responses go to the optional-string decoder |
| MessageLaws.ServerRoundTrip | recisdb-protocol/src/codec.rs:116-202 | every server message whose strings and list fit their length fields decodes back to itself at its own type (see also codec.rs lines 688-874) |
| MessageLaws.FlagCodeRoundTrip | recisdb-protocol/src/codec.rs:139-142 | a flag then a u16 code read back (see also codec.rs lines 731-741) |
| MessageLaws.FlagCodePrefix | recisdb-protocol/src/codec.rs:139-142 | a flag and code read back from the front of a longer payload (see also codec.rs lines 731-741) |
| MessageLaws.ClientFrameRoundTrip | recisdb-protocol/src/codec.rs:21-113 | a whole client frame: the header names the payload's length and type, and the payload decodes to the message (see also codec.rs lines 503-684) |
| MessageLaws.ServerFrameRoundTrip | recisdb-protocol/src/codec.rs:116-202 | a whole server frame, likewise (see also codec.rs lines 503-529, 688-874) |
| RingBuffer.CopyInto | bondriver-proxy-client/src/client/buffer.rs:74-80 | the copied bytes land at the given offset and nothing else in the array changes |
| RingBuffer.TsRingBuffer.constructor | bondriver-proxy-client/src/client/buffer.rs:27-35 | a new buffer holds nothing |
| RingBuffer.TsRingBuffer.Available | bondriver-proxy-client/src/client/buffer.rs:38-46 | the count is the number of waiting bytes, the wrapped distance from read to write, and is always below the buffer size |
| RingBuffer.TsRingBuffer.FreeSpace | bondriver-proxy-client/src/client/buffer.rs:49-51 | waiting bytes plus free space is one less than the buffer size |
| RingBuffer.TsRingBuffer.IsEmpty | bondriver-proxy-client/src/client/buffer.rs:159-161 | true iff nothing is waiting |
| RingBuffer.TsRingBuffer.Write | bondriver-proxy-client/src/client/buffer.rs:56-85 | writes min(data length, free space) bytes, appended after the waiting ones in order; the read position does not move |
| RingBuffer.WriteAt | bondriver-proxy-client/src/client/buffer.rs:72-84 | the copies put the data right after the waiting bytes, in order, wrapping at the array end |
| RingBuffer.TsRingBuffer.Read | bondriver-proxy-client/src/client/buffer.rs:91-110 | the view is the oldest waiting bytes, at most the limit and only up to the array's end; the second count is what is left after the view, or the contiguous count for an empty view |
| RingBuffer.TsRingBuffer.Contiguous | bondriver-proxy-client/src/client/buffer.rs:95-99 | the waiting bytes before the array's end, zero iff nothing is waiting |
| RingBuffer.TsRingBuffer.ReadInto | bondriver-proxy-client/src/client/buffer.rs:115-143 | copies the oldest min(len, available) bytes to the front of the destination without consuming them, leaves the rest of it unchanged, and reports the count left behind |
| RingBuffer.TsRingBuffer.Consume | bondriver-proxy-client/src/client/buffer.rs:146-150 | the read position moves on modulo the buffer size; consuming no more than what waits drops exactly that many oldest bytes |
| RingBuffer.TsRingBuffer.Clear | bondriver-proxy-client/src/client/buffer.rs:153-156 | the buffer is empty again |
| RingBuffer.StraightWrite | bondriver-proxy-client/src/client/buffer.rs:72-84 | a write that does not pass the array's end appends its bytes to the waiting ones |
| RingBuffer.WrappedWrite | bondriver-proxy-client/src/client/buffer.rs:72-84 | a write split at the array's end appends both chunks in order |
| RingBuffer.FifoRoundTrip | bondriver-proxy-client/src/client/buffer.rs:179-190 | bytes written into an empty buffer are read back in order, with nothing remaining |
| BonDriverExports.PacketFloor | bondriver-proxy-client/src/bondriver/exports.rs:292 | the read size is rounded down to a whole number of 188-byte packets |
| BonDriverExports.Dword | bondriver-proxy-client/src/bondriver/exports.rs:177 | a count narrowed to a DWORD saturates at its maximum and is unchanged below it (see also exports.rs lines 210, 274) |
| BonDriverExports.ReadyCount | bondriver-proxy-client/src/bondriver/exports.rs:201-211 | the ready count is the number of whole packets waiting |
| BonDriverExports.WaitTsStreamPoll | bondriver-proxy-client/src/bondriver/exports.rs:155-178 | a failed stream start answers 0; otherwise a zero timeout answers the number of whole packets waiting, without waiting |
| BonDriverExports.GetTsStream | bondriver-proxy-client/src/bondriver/exports.rs:225-351 | refused iff the size or remain pointer is null, and then nothing is consumed; otherwise the bytes copied are the oldest whole packets waiting, within the caller's capacity and 64 KiB, exactly those are consumed, and the remain count is what is left |
| BonDriverExports.Resize | bondriver-proxy-client/src/bondriver/exports.rs:437 | the buffer keeps its first bytes and is padded with zeros to the new length |
| BonDriverExports.BonDriverState.constructor | bondriver-proxy-client/src/bondriver/exports.rs:42-52 | no current space or channel (0xFFFFFFFF), empty caches |
| BonDriverExports.BonDriverState.GetTsStreamPtr | bondriver-proxy-client/src/bondriver/exports.rs:352-485 | refused iff an out pointer is null, consuming nothing; otherwise the held buffer is the oldest whole packets waiting, at most 64 KiB, exactly those are consumed, and with less than a packet waiting the data pointer is null |
| BonDriverExports.BonDriverState.EnumTuningSpace | bondriver-proxy-client/src/bondriver/exports.rs:534-574 | spaces from 256 on are refused; a cached name is answered from the cache; otherwise the server's answer, cached when present; nothing else in the state changes |
| BonDriverExports.BonDriverState.EnumChannelName | bondriver-proxy-client/src/bondriver/exports.rs:576-625 | spaces from 256 on and channels from 1024 on are refused; otherwise the same cache discipline per space |
| BonDriverExports.BonDriverState.SetChannel2 | bondriver-proxy-client/src/bondriver/exports.rs:626-657 | space and channel become current, and the waiting bytes are purged, iff the server accepted the switch; otherwise nothing changes |
| BonDriverExports.BonDriverState.SetChannel | bondriver-proxy-client/src/bondriver/exports.rs:134-145 | on success the channel becomes current in space 0; otherwise the current position is kept |
| BonDriverExports.CacheStore | bondriver-proxy-client/src/bondriver/exports.rs:563-567 | storing at an index past the end pads with None first; every other slot keeps its name |
| ClientConfig.Classify | bondriver-proxy-client/src/config.rs:101-124 | a trimmed line is ignored iff blank or a comment, a header iff bracketed (its name between the brackets), a pair iff it holds an '=' |
| ClientConfig.ParseIni | bondriver-proxy-client/src/config.rs:96-128 | the result is the fold of the per-line step over the file's lines |
| ClientConfig.ParseAll | bondriver-proxy-client/src/config.rs:100-125 | the loop over the lines computes that fold |
| ClientConfig.ParseLine | bondriver-proxy-client/src/config.rs:100-125 | one iteration of the loop is one step of the fold |
| ClientConfig.SkippedLinesChangeNothing | bondriver-proxy-client/src/config.rs:103-106 | blank lines, comments and lines that are neither a header nor a pair leave the state unchanged (see also config.rs line 115) |
| ClientConfig.HeaderSwitchesSection | bondriver-proxy-client/src/config.rs:108-113 | a header becomes current and is created when absent, every existing section keeping its entries |
| ClientConfig.PairSplitsAtFirstEquals | bondriver-proxy-client/src/config.rs:116-118 | key and value are the trimmed halves around the first '=' |
| ClientConfig.PairIsStored | bondriver-proxy-client/src/config.rs:116-123 | a pair goes into the current section, created when needed, replacing an earlier value of its key; other sections are unchanged |
| ClientConfig.FirstSectionIsUnnamed | bondriver-proxy-client/src/config.rs:98 | pairs before any header land in the unnamed section (see also config.rs lines 120-122) |
| ClientConfig.RepeatedKeyKeepsLast | bondriver-proxy-client/src/config.rs:120-123 | a repeated key keeps its last value |
| ClientConfig.ParseExclusive | bondriver-proxy-client/src/config.rs:171-177 | the flag is set iff the value is 1, true, yes or on in any letter case |
| ClientConfig.ExclusiveExamples | bondriver-proxy-client/src/config.rs:171-177 | TRUE, On, 1 and yEs are accepted; 0, the empty string, a padded true and enable are not |
| ClientConfig.GetEither | bondriver-proxy-client/src/config.rs:143-153 | the first of two alternative keys present, if any |
| ClientConfig.ParsedOr | bondriver-proxy-client/src/config.rs:155-169 | a present and well-formed value, else the default |
| ClientConfig.ConfigOfSection | bondriver-proxy-client/src/config.rs:143-207 | address, tuner, timeouts, priority and exclusivity from the section, each with its default when absent; a present timeout or priority is its parsed value, or the default when it does not parse in range |
| ClientConfig.LoadFromIni | bondriver-proxy-client/src/config.rs:131-141 | a configuration iff the file was read and holds a [Server] section, and then the one that section gives |
| ClientConfig.LoadFromEnv | bondriver-proxy-client/src/config.rs:211-258 | each `BONDRIVER_PROXY_*` variable present gives its setting (address and tuner verbatim; a timeout or the priority parsed in range, else its default); an absent one gives the default; the priority stays within `i32` |
| ClientConfig.SectionOfEnv | bondriver-proxy-client/src/config.rs:211-258 | each INI key of `[Server]` is present exactly when its environment variable is, with that variable's value; the legacy `Server` and `TunerPath` keys never are |
| ClientConfig.EnvAgreesWithIni | bondriver-proxy-client/src/config.rs:143-258 | the environment yields exactly the configuration the corresponding `[Server]` section yields |
| ClientConfig.LoadConfig | bondriver-proxy-client/src/config.rs:22-33 | the INI configuration when there is one, else the environment's |
| TsPackets.AdaptationFieldControlValues | recisdb-rs/src/ts_analyzer/packet.rs:32-39 | control 0 announces nothing, 1 a payload only, 2 an adaptation field only, 3 both |
| TsPackets.ParseHeader | recisdb-rs/src/ts_analyzer/packet.rs:100-108 | the flags, the 13-bit PID, the scrambling control and the continuity counter are the bit fields of bytes 1 to 3 |
| TsPackets.HeaderRoundTrip | recisdb-rs/src/ts_analyzer/packet.rs:100-108 | every well-formed header is read back from the bytes that carry it |
| TsPackets.Pcr | recisdb-rs/src/ts_analyzer/packet.rs:132-138 | the PCR is base times 300 plus extension; base and extension are read back from it when the extension is below 300 |
| TsPackets.PcrBase | recisdb-rs/src/ts_analyzer/packet.rs:132-136 | the base has 33 bits |
| TsPackets.PcrExtension | recisdb-rs/src/ts_analyzer/packet.rs:137 | the extension has 9 bits |
| TsPackets.ParseAdaptationField | recisdb-rs/src/ts_analyzer/packet.rs:111-147 | the length is byte 4; a PCR is read iff the field is at least six bytes and the PCR flag is set; an empty field has only its length |
| TsPackets.PayloadOffset | recisdb-rs/src/ts_analyzer/packet.rs:110-113 | the payload starts after the four header bytes, or after the adaptation field |
| TsPackets.Parse | recisdb-rs/src/ts_analyzer/packet.rs:91-163 | a packet is refused iff shorter than 188 bytes ("Packet too short") or not starting with 0x47 ("Invalid sync byte"); an accepted one has the header of bytes 1 to 3, an adaptation field iff the control announces one, and a payload of at most 184 bytes |
| TsPackets.PayloadLayout | recisdb-rs/src/ts_analyzer/packet.rs:152-156 | the payload is the rest of the packet after the header or the adaptation field, and empty when none is announced or the field fills the packet |
| TsPackets.PsiPayload | recisdb-rs/src/ts_analyzer/packet.rs:167-183 | without a section start the whole payload; with one, what follows the pointer field and the bytes it skips, or nothing when that leaves nothing; always a non-empty suffix of the payload |
| TsPackets.SyncFrom | recisdb-rs/src/ts_analyzer/packet.rs:196-199 | the first sync byte at or after the position, or the end of the data (see also packet.rs lines 205-208) |
| TsPackets.StartsAreWholePackets | recisdb-rs/src/ts_analyzer/packet.rs:215-233 | every packet the iterator yields starts with the sync byte inside the data, and consecutive packets do not overlap |
| TsPackets.PacketAt | recisdb-rs/src/ts_analyzer/packet.rs:222-225 | the packet yielded at a start is the parse of the data from there |
| TsPackets.TsPacketIterator.constructor | recisdb-rs/src/ts_analyzer/packet.rs:194-201 | the iterator starts at the first sync byte |
| TsPackets.TsPacketIterator.Resync | recisdb-rs/src/ts_analyzer/packet.rs:204-209 | one byte on, then to the next sync byte |
| TsPackets.TsPacketIterator.Next | recisdb-rs/src/ts_analyzer/packet.rs:215-233 | the packet at the next start and the rest of the starts afterwards, or nothing when no whole packet is left |
| Crc.Crc32 | recisdb-rs/src/ts_analyzer/psi.rs:245-250 | the register starts at all ones and is not inverted at the end, so the empty input gives 0xFFFFFFFF |
| Crc.CrcFromConcat | recisdb-rs/src/ts_analyzer/psi.rs:246-249 | the CRC of a concatenation continues from the register after the first part |
| Crc.ComputeTableEntry | recisdb-rs/src/ts_analyzer/psi.rs:229-238 | the inner loop computes the table entry: eight steps of polynomial division of i << 24 |
| Crc.BuildCrcTable | recisdb-rs/src/ts_analyzer/psi.rs:225-243 | the table has 256 entries, each the entry of its index |
| Crc.Crc32Mpeg2 | recisdb-rs/src/ts_analyzer/psi.rs:223-251 | the byte loop over the table computes the CRC |
| Psi.SectionLengthOf | recisdb-rs/src/ts_analyzer/psi.rs:52 | the 12-bit section length is the low four bits of byte 1 over byte 2 |
| Psi.ParseSection | recisdb-rs/src/ts_analyzer/psi.rs:45-115 | an error iff one of the length checks fails, with that check's message; otherwise the table id, the section length and the syntax flag of the first three bytes |
| Psi.UnreachableSectionErrors | recisdb-rs/src/ts_analyzer/psi.rs:65-67 | the extended-header check never fires, and a short-syntax section never lacks data (see also psi.rs lines 97-99) |
| Psi.TotalLength | recisdb-rs/src/ts_analyzer/psi.rs:129-131 | three header bytes plus the section length |
| Psi.LongSectionRoundTrip | recisdb-rs/src/ts_analyzer/psi.rs:45-115 | an emitted long section, followed by anything, parses back to all its header fields and its payload |
| Psi.ParseLongBody | recisdb-rs/src/ts_analyzer/psi.rs:63-101 | a long-syntax body followed by at least four CRC bytes parses back to its fields |
| Psi.VerifyCrc | recisdb-rs/src/ts_analyzer/psi.rs:118-126 | a passing check needs the data to hold the whole section |
| Psi.EmittedSectionVerifies | recisdb-rs/src/ts_analyzer/psi.rs:118-126 | a long section emitted with its CRC passes its own CRC check (see also psi.rs lines 223-251) |
| Psi.CrcBytesValue | recisdb-rs/src/ts_analyzer/psi.rs:104-108 | the four CRC bytes read big-endian give back the CRC |
| Psi.SectionReady | recisdb-rs/src/ts_analyzer/psi.rs:210-214 | a section iff an expected length is known and that many bytes are buffered, and then the first that many bytes |
| Psi.Collect | recisdb-rs/src/ts_analyzer/psi.rs:161-207 | the last counter becomes the packet's; completion is reported only when a section is ready, and is exactly readiness unless the packet starts a section that is empty or begins past the payload |
| Psi.DiscontinuityClears | recisdb-rs/src/ts_analyzer/psi.rs:163-169 | a counter gap in a packet that starts no section drops everything collected |
| Psi.SectionStartReplaces | recisdb-rs/src/ts_analyzer/psi.rs:186-195 | a section start replaces the buffer with what follows the pointer field and sets the expected length from it when three bytes are there |
| Psi.ContinuationAppends | recisdb-rs/src/ts_analyzer/psi.rs:196-199 | a continuing packet in sequence is appended to a section being collected |
| Psi.ContinuationWithoutStartDropped | recisdb-rs/src/ts_analyzer/psi.rs:196-199 | a continuing packet with nothing collected is dropped |
| Psi.ShortStartKeepsExpectation | recisdb-rs/src/ts_analyzer/psi.rs:191-195 | a section start with fewer than three bytes after the pointer keeps the expected length the collector had |
| Psi.SectionCollector.constructor | recisdb-rs/src/ts_analyzer/psi.rs:147-149 | a new collector is empty |
| Psi.SectionCollector.Clear | recisdb-rs/src/ts_analyzer/psi.rs:152-156 | the collector is empty again |
| Psi.SectionCollector.AddData | recisdb-rs/src/ts_analyzer/psi.rs:161-207 | the new state and the completion flag are those of Collect |
| Psi.SectionCollector.GetSection | recisdb-rs/src/ts_analyzer/psi.rs:210-214 | the section Collect's state holds, if ready |
| Psi.SectionCollector.IsEmpty | recisdb-rs/src/ts_analyzer/psi.rs:217-219 | true iff nothing is buffered |
| Pat.ProgramNumberAt | recisdb-rs/src/ts_analyzer/pat.rs:52 | the program number is the first two bytes of the entry |
| Pat.PidAt | recisdb-rs/src/ts_analyzer/pat.rs:53 | the PID is the low five bits of the third byte over the fourth |
| Pat.ProgramsOf | recisdb-rs/src/ts_analyzer/pat.rs:51-64 | the programs are the entries not numbered 0, at most one per entry, each with a 16-bit number and a 13-bit PID |
| Pat.NitPidOf | recisdb-rs/src/ts_analyzer/pat.rs:55-57 | the NIT PID is the PID of the last entry numbered 0 |
| Pat.PatOf | recisdb-rs/src/ts_analyzer/pat.rs:33-67 | an error iff the table id is not the PAT's ("Not a PAT section") or the body is not whole entries ("Invalid PAT data length"); otherwise the stream id and version of the header |
| Pat.ParsePat | recisdb-rs/src/ts_analyzer/pat.rs:33-67 | the parser yields that table: an error for a wrong table id or a length not a multiple of four, otherwise the entries read by the loop |
| Pat.ReadEntries | recisdb-rs/src/ts_analyzer/pat.rs:51-64 | the chunk loop yields the program entries in order, number 0 excluded, and the PID of the last entry numbered 0 |
| Pat.GetPmtPid | recisdb-rs/src/ts_analyzer/pat.rs:70-75 | the PID of the first program with the number, none iff no program has it |
| Pat.AllPmtPids | recisdb-rs/src/ts_analyzer/pat.rs:78-80 | the PIDs of the programs, in order |
| Pat.AllProgramNumbers | recisdb-rs/src/ts_analyzer/pat.rs:83-85 | the program numbers, in order |
| Pat.EncodedEntryAt | recisdb-rs/src/ts_analyzer/pat.rs:52-53 | each entry of an encoded body decodes to the entry encoded |
| Pat.ProgramsOfEncoded | recisdb-rs/src/ts_analyzer/pat.rs:51-64 | a body of programs none numbered 0 decodes to those programs and no NIT PID |
| Pat.PatRoundTrip | recisdb-rs/src/ts_analyzer/pat.rs:33-67 | parsing a PAT section listing valid programs gives them back, with the section's stream id and no NIT PID |
| Pat.NitEntrySetsNitPid | recisdb-rs/src/ts_analyzer/pat.rs:55-57 | an entry numbered 0 after the programs is not a program and names the NIT PID |
| Pmt.VideoAndAudioDisjoint | recisdb-proxy/src/ts_analyzer/pmt.rs:46-65 | no stream type is both video and audio |
| Pmt.StreamTypeName | recisdb-proxy/src/ts_analyzer/pmt.rs:68-82 | the name is "Unknown" iff the type is neither video, audio, private sections nor PES private data |
| Pmt.StreamsStep | recisdb-proxy/src/ts_analyzer/pmt.rs:131-150 | an entry that fits is the next stream and the loop goes on after its descriptors |
| Pmt.StreamsLoopStep | recisdb-proxy/src/ts_analyzer/pmt.rs:131-150 | one turn of the loop adds the entry at the offset to the streams read |
| Pmt.StreamsLoopEnd | recisdb-proxy/src/ts_analyzer/pmt.rs:131-140 | the loop stops at an entry that does not fit, having read every stream |
| Pmt.PmtOf | recisdb-proxy/src/ts_analyzer/pmt.rs:102-153 | an error iff a table id, length or program-info check fails, with its message; otherwise the program number, PCR PID and program info of the section, and the stream loop after the program info |
| Pmt.ParsePmt | recisdb-proxy/src/ts_analyzer/pmt.rs:102-153 | the parser's loop yields that table |
| Pmt.ReadStreams | recisdb-proxy/src/ts_analyzer/pmt.rs:131-150 | the stream loop reads exactly the streams that fit, in order, stopping at the first that overruns |
| Pmt.SelectedPids | recisdb-proxy/src/ts_analyzer/pmt.rs:156-171 | a PID is selected iff some stream the filter keeps has it |
| Pmt.VideoPids | recisdb-proxy/src/ts_analyzer/pmt.rs:156-162 | a PID is listed iff some video stream has it |
| Pmt.AudioPids | recisdb-proxy/src/ts_analyzer/pmt.rs:165-171 | a PID is listed iff some audio stream has it |
| Pmt.AllPids | recisdb-proxy/src/ts_analyzer/pmt.rs:174-176 | the PIDs of all streams, in order |
| Pmt.SelectedPidsAppend | recisdb-proxy/src/ts_analyzer/pmt.rs:156-171 | selection keeps the streams' order |
| Pmt.VideoAndAudioPidsBounded | recisdb-proxy/src/ts_analyzer/pmt.rs:156-171 | video and audio PIDs together are no more than the streams |
| Pmt.StreamsOfEncodedStream | recisdb-proxy/src/ts_analyzer/pmt.rs:131-150 | one encoded stream in front of any bytes is read back and the loop goes on with those bytes |
| Pmt.StreamsRoundTrip | recisdb-proxy/src/ts_analyzer/pmt.rs:131-150 | every encoded stream is read back, and a truncated entry after them leaves them in place |
| Pmt.OverrunEndsLoop | recisdb-proxy/src/ts_analyzer/pmt.rs:138-140 | an entry whose ES-info length runs past the end ends the loop |
| Nit.TerrestrialDeliveryIn | recisdb-rs/src/ts_analyzer/nit.rs:27-34 | the delivery descriptor iff the first one with its tag parses, and then that one |
| Nit.Frequencies | recisdb-rs/src/ts_analyzer/nit.rs:37-42 | the delivery descriptor's frequencies, or none without one |
| Nit.NetworkNameIn | recisdb-rs/src/ts_analyzer/nit.rs:84-89 | the name iff a network name descriptor is present, and then its decoded body |
| Nit.EntryAt | recisdb-rs/src/ts_analyzer/nit.rs:109-129 | the entry's two 16-bit ids and exactly its descriptors |
| Nit.TransportStreamsFit | recisdb-rs/src/ts_analyzer/nit.rs:108 | every entry read lies inside both the loop and the data |
| Nit.NitOf | recisdb-rs/src/ts_analyzer/nit.rs:62-135 | an error iff a table id or length check fails, with its message; otherwise the network id, version, network descriptors and name, and the transport stream loop |
| Nit.TransportStreamsStep | recisdb-rs/src/ts_analyzer/nit.rs:108-132 | one turn of the loop adds the entry at the offset |
| Nit.TransportStreamsEnd | recisdb-rs/src/ts_analyzer/nit.rs:108 | the loop stops at a header that does not fit or descriptors that overrun, having read every entry (see also nit.rs lines 116-118) |
| Nit.ReadEntry | recisdb-rs/src/ts_analyzer/nit.rs:109-129 | one turn reads the entry at the offset |
| Nit.ReadTransportStreams | recisdb-rs/src/ts_analyzer/nit.rs:98-132 | the loop, its length read at the loop offset, computes the transport streams of the loop |
| Nit.ParseNit | recisdb-rs/src/ts_analyzer/nit.rs:62-135 | the parser yields that table |
| Nit.FindTransportStream | recisdb-rs/src/ts_analyzer/nit.rs:138-142 | the first transport stream with the id, none iff none has it |
| Nit.AllTsids | recisdb-rs/src/ts_analyzer/nit.rs:145-150 | the ids of the transport streams, in order |
| Nit.FindIffListed | recisdb-rs/src/ts_analyzer/nit.rs:138-150 | an id is found iff it is among all the ids |
| Sdt.ServiceDescriptorFound | recisdb-rs/src/ts_analyzer/sdt.rs:31-37 | a service has a service descriptor iff the first one with its tag parses, and then it is that one |
| Sdt.ServiceName | recisdb-rs/src/ts_analyzer/sdt.rs:40-44 | the descriptor's service name, iff there is a descriptor |
| Sdt.ProviderName | recisdb-rs/src/ts_analyzer/sdt.rs:47-51 | the descriptor's provider name, iff there is a descriptor |
| Sdt.ServiceType | recisdb-rs/src/ts_analyzer/sdt.rs:54-56 | the descriptor's service type, iff there is a descriptor |
| Sdt.RunningStatusName | recisdb-rs/src/ts_analyzer/sdt.rs:59-69 | "Unknown" iff above 7, "Reserved" iff 5 to 7 |
| Sdt.ServiceAt | recisdb-rs/src/ts_analyzer/sdt.rs:112-138 | a 16-bit id, a 3-bit running status and exactly the entry's descriptors |
| Sdt.ServicesFit | recisdb-rs/src/ts_analyzer/sdt.rs:111 | every service read lies inside the data |
| Sdt.SdtOf | recisdb-rs/src/ts_analyzer/sdt.rs:87-144 | an error iff a table id or length check fails, with its message; otherwise the stream id, original network id and version, and the service loop |
| Sdt.ServicesStep | recisdb-rs/src/ts_analyzer/sdt.rs:111-141 | one turn of the loop adds the entry at the offset |
| Sdt.ServicesEnd | recisdb-rs/src/ts_analyzer/sdt.rs:111 | the loop stops at a header or descriptors that do not fit, having read every service (see also sdt.rs lines 122-124) |
| Sdt.ReadService | recisdb-rs/src/ts_analyzer/sdt.rs:112-138 | one turn reads the entry at the offset |
| Sdt.ReadServices | recisdb-rs/src/ts_analyzer/sdt.rs:110-141 | the loop computes the services of the data |
| Sdt.ParseSdt | recisdb-rs/src/ts_analyzer/sdt.rs:87-144 | the parser yields that table |
| Sdt.FirstWithId | recisdb-rs/src/ts_analyzer/sdt.rs:147-149 | the first service with the id, none iff none has it |
| Sdt.FindService | recisdb-rs/src/ts_analyzer/sdt.rs:147-149 | the same, over the table |
| Sdt.AllServiceIds | recisdb-rs/src/ts_analyzer/sdt.rs:152-154 | the service ids, in order |
| Sdt.TableServiceName | recisdb-rs/src/ts_analyzer/sdt.rs:157-160 | the name of the first service with the id, iff that service has a descriptor |
| Sdt.FindIffListed | recisdb-rs/src/ts_analyzer/sdt.rs:147-154 | an id is found iff it is among all the ids |
| Sdt.ServiceHeaderFields | recisdb-rs/src/ts_analyzer/sdt.rs:112-118 | each field of an encoded service header reads back from its bits |
| Sdt.ServiceHeaderRoundTrip | recisdb-rs/src/ts_analyzer/sdt.rs:112-138 | a header followed by its descriptors decodes to the fields encoded |
| Descriptors.DescriptorLoopStep | recisdb-rs/src/ts_analyzer/descriptors.rs:226-244 | one turn adds the descriptor at the offset to the list read |
| Descriptors.DescriptorLoopEnd | recisdb-rs/src/ts_analyzer/descriptors.rs:226-244 | the loop stops at a descriptor that does not fit, having read the whole list |
| Descriptors.ParseDescriptorLoop | recisdb-rs/src/ts_analyzer/descriptors.rs:226-244 | the loop computes the descriptor list |
| Descriptors.FirstWithTag | recisdb-rs/src/ts_analyzer/descriptors.rs:247-252 | the body of the first descriptor with the tag, none iff none has it |
| Descriptors.FindDescriptor | recisdb-rs/src/ts_analyzer/descriptors.rs:247-252 | the same, over the parsed loop |
| Descriptors.DescriptorListCons | recisdb-rs/src/ts_analyzer/descriptors.rs:226-244 | an encoded descriptor in front of any bytes is read back and the loop goes on |
| Descriptors.DescriptorLoopRoundTrip | recisdb-rs/src/ts_analyzer/descriptors.rs:226-244 | every encoded descriptor is read back, and a truncated one after them leaves them in place |
| Descriptors.TruncatedDescriptorEndsLoop | recisdb-rs/src/ts_analyzer/descriptors.rs:226-244 | a descriptor whose length runs past the end ends the loop |
| Descriptors.BcdToU32 | recisdb-rs/src/ts_analyzer/descriptors.rs:297-305 | the loop computes the decimal value of the BCD digits modulo 2^32 |
| Descriptors.BcdValueSnoc | recisdb-rs/src/ts_analyzer/descriptors.rs:300-303 | each byte multiplies the value by 100 and adds its two digits |
| Descriptors.BcdBounds | recisdb-rs/src/ts_analyzer/descriptors.rs:297-305 | valid BCD in n bytes is below 100^n, and any n bytes stay below 165/99 of that |
| Descriptors.ShortBcdExact | recisdb-rs/src/ts_analyzer/descriptors.rs:165-166 | four bytes or fewer never wrap, so the conversion is the decimal value |
| Descriptors.BcdExamples | recisdb-rs/src/ts_analyzer/descriptors.rs:365-369 | 0x1234 is 1234, 0x0001 is 1, 0x9999 is 9999 |
| Descriptors.PrintableAscii | recisdb-rs/src/ts_analyzer/descriptors.rs:283-292 | the fallback keeps printable ASCII, LF and CR and shows other bytes as '?', never growing |
| Descriptors.DecodeAribString | recisdb-rs/src/ts_analyzer/descriptors.rs:259-294 | the empty input decodes to the empty string |
| Descriptors.AribStringOfUtf8 | recisdb-rs/src/ts_analyzer/descriptors.rs:259-294 | UTF-8 text after a character-set byte reads back unchanged |
| Descriptors.AribStringOfPlainUtf8 | recisdb-rs/src/ts_analyzer/descriptors.rs:259-294 | UTF-8 text without that byte, not starting with a control character, reads back unchanged |
| Descriptors.FieldAt | recisdb-rs/src/ts_analyzer/descriptors.rs:25-45 | a length-prefixed field reads back from where it was written |
| Descriptors.ParseServiceDescriptor | recisdb-rs/src/ts_analyzer/descriptors.rs:20-50 | an error iff a length check fails, with its message; otherwise the type byte and the two length-prefixed names |
| Descriptors.ParseServiceDescriptorBody | recisdb-rs/src/ts_analyzer/descriptors.rs:20-50 | any two fields that fit their length bytes parse back as the names they encode |
| Descriptors.ServiceDescriptorRoundTrip | recisdb-rs/src/ts_analyzer/descriptors.rs:20-50 | an encoded service descriptor parses back to its type and both names |
| Descriptors.ServiceTypeName | recisdb-rs/src/ts_analyzer/descriptors.rs:53-73 | "Unknown" iff the type is none of the named ones |
| Descriptors.ParseNetworkNameDescriptor | recisdb-rs/src/ts_analyzer/descriptors.rs:85-89 | never fails; the name is the decoded body |
| Descriptors.FrequencyHz | recisdb-rs/src/ts_analyzer/descriptors.rs:122 | the frequency is the value times 1/7 MHz, truncated to 32 bits |
| Descriptors.TerrestrialDeliveryOf | recisdb-rs/src/ts_analyzer/descriptors.rs:107-133 | an error iff fewer than two bytes; otherwise the 12-bit area code, guard interval and transmission mode, and one frequency per whole byte pair |
| Descriptors.ParseTerrestrialDelivery | recisdb-rs/src/ts_analyzer/descriptors.rs:107-133 | the frequency loop yields that descriptor |
| Descriptors.ParseSatelliteDelivery | recisdb-rs/src/ts_analyzer/descriptors.rs:159-190 | an error iff fewer than eleven bytes; otherwise frequency, orbital position and the other fields from their BCD digits and bits |
| Descriptors.ParseTsInformation | recisdb-rs/src/ts_analyzer/descriptors.rs:204-222 | an error iff the name does not fit; otherwise the remote-control key and the name whose length is the top six bits of the second byte |
| Analyzer.HasMinimumInfo | recisdb-proxy/src/ts_analyzer/analyzer.rs:112-114 | true iff a PAT is held |
| Analyzer.MinimumInfoNeeded | recisdb-proxy/src/ts_analyzer/analyzer.rs:65-140 | a complete result has the minimum information; without it there is no channel information at all |
| Analyzer.IsComplete | recisdb-proxy/src/ts_analyzer/analyzer.rs:117-140 | the loop over the PAT's programs answers the completion predicate: a PAT, the NIT and SDT when configured, and a PMT for every program when configured |
| Analyzer.CompletionSteps | recisdb-proxy/src/ts_analyzer/analyzer.rs:444-463 | no PAT, then no NIT, then no SDT keep the result incomplete; all three complete it |
| Analyzer.CompleteWithMorePmts | recisdb-proxy/src/ts_analyzer/analyzer.rs:117-140 | a complete result stays complete when another PMT arrives |
| Analyzer.ChannelInfoOf | recisdb-proxy/src/ts_analyzer/analyzer.rs:65-97 | information iff the PAT lists the service, carrying its id and the result's network and stream ids; with an SDT, the service name and type of the first SDT entry for the id, none without an SDT; with its PMT, the first video PID and the audio PIDs in stream order, none without it |
| Analyzer.ChannelsOf | recisdb-proxy/src/ts_analyzer/analyzer.rs:100-109 | at most one entry per id asked for |
| Analyzer.AllChannels | recisdb-proxy/src/ts_analyzer/analyzer.rs:100-109 | nothing without a PAT |
| Analyzer.ChannelsOfListed | recisdb-proxy/src/ts_analyzer/analyzer.rs:100-109 | every service the PAT lists gets an entry, in order |
| Analyzer.AllChannelsCoverPat | recisdb-proxy/src/ts_analyzer/analyzer.rs:100-109 | one entry per PAT entry, with its program number, in order |
| Analyzer.PmtPidMapContents | recisdb-proxy/src/ts_analyzer/analyzer.rs:318-323 | the watched PMT PIDs are exactly the PAT entries' PIDs, each mapped to the last program with it |
| Analyzer.PatStep | recisdb-proxy/src/ts_analyzer/analyzer.rs:304-328 | a newer PAT replaces the result's PAT and PMT PIDs; the section collectors are untouched |
| Analyzer.NitStep | recisdb-proxy/src/ts_analyzer/analyzer.rs:331-348 | a newer NIT replaces the old one with its network id and name; collectors and PMT PIDs untouched |
| Analyzer.SdtStep | recisdb-proxy/src/ts_analyzer/analyzer.rs:351-366 | a newer SDT replaces the old one; collectors and PMT PIDs untouched |
| Analyzer.PmtStep | recisdb-proxy/src/ts_analyzer/analyzer.rs:369-389 | a newer PMT of the expected program replaces its PMT; collectors and PMT PIDs untouched |
| Analyzer.SectionStep | recisdb-proxy/src/ts_analyzer/analyzer.rs:284-301 | a section that parses goes to the handler of its PID; collectors untouched |
| Analyzer.IgnoredPackets | recisdb-proxy/src/ts_analyzer/analyzer.rs:242-250 | null, damaged and scrambled packets leave the analyzer unchanged |
| Analyzer.UnwatchedPackets | recisdb-proxy/src/ts_analyzer/analyzer.rs:252-260 | a packet on a PID the analyzer does not watch leaves it unchanged |
| Analyzer.PatOnlyGetsNewer | recisdb-proxy/src/ts_analyzer/analyzer.rs:309-313 | a held PAT is replaced only by a strictly newer version |
| Analyzer.NitOnlyGetsNewer | recisdb-proxy/src/ts_analyzer/analyzer.rs:336-341 | a held NIT is replaced only by a strictly newer version |
| Analyzer.SdtOnlyGetsNewer | recisdb-proxy/src/ts_analyzer/analyzer.rs:356-361 | a held SDT is replaced only by a strictly newer version |
| Analyzer.PmtOnlyGetsNewer | recisdb-proxy/src/ts_analyzer/analyzer.rs:379-388 | the PMT of a program is replaced only by a strictly newer one, with that program's number |
| Analyzer.PmtOfOtherProgramIgnored | recisdb-proxy/src/ts_analyzer/analyzer.rs:374-377 | a PMT section for a program other than the expected one is ignored |
| Analyzer.Counted | recisdb-proxy/src/ts_analyzer/analyzer.rs:213-215 | each packet processed advances the packet counter by one |
| Analyzer.FeedAnswersComplete | recisdb-proxy/src/ts_analyzer/analyzer.rs:194-236 | feed answers the completion flag it leaves behind |
| Analyzer.FeedCountsPackets | recisdb-proxy/src/ts_analyzer/analyzer.rs:194-236 | feed counts at most the packets in the data, and reports completion when the packet limit lies within them |
| Analyzer.FeedSkips | recisdb-proxy/src/ts_analyzer/analyzer.rs:204-210 | a byte that is not a sync byte is skipped |
| Analyzer.FeedFromPacket | recisdb-proxy/src/ts_analyzer/analyzer.rs:213-232 | feeding from a sync byte with a whole packet counts that packet, then stops with the complete flag set or goes on 188 bytes later |
| Analyzer.TsAnalyzer.constructor | recisdb-proxy/src/ts_analyzer/analyzer.rs:177-184 | a new analyzer holds its configuration and the initial state |
| Analyzer.TsAnalyzer.Reset | recisdb-proxy/src/ts_analyzer/analyzer.rs:402-406 | back to the initial state, with the same configuration |
| Analyzer.TsAnalyzer.ProcessPat | recisdb-proxy/src/ts_analyzer/analyzer.rs:304-328 | the new state is the PAT step of the old |
| Analyzer.TsAnalyzer.ProcessNit | recisdb-proxy/src/ts_analyzer/analyzer.rs:331-348 | the new state is the NIT step of the old |
| Analyzer.TsAnalyzer.ProcessSdt | recisdb-proxy/src/ts_analyzer/analyzer.rs:351-366 | the new state is the SDT step of the old |
| Analyzer.TsAnalyzer.ProcessPmt | recisdb-proxy/src/ts_analyzer/analyzer.rs:369-389 | the new state is the PMT step of the old |
| Analyzer.TsAnalyzer.ProcessSection | recisdb-proxy/src/ts_analyzer/analyzer.rs:284-301 | the new state is the section step of the old |
| Analyzer.TsAnalyzer.ProcessPacket | recisdb-proxy/src/ts_analyzer/analyzer.rs:239-281 | the new state is the packet step of the old |
| Analyzer.TsAnalyzer.Feed | recisdb-proxy/src/ts_analyzer/analyzer.rs:194-236 | the new state and the answer are those of the feed function from the start of the data |
| Analyzer.TsAnalyzer.FeedPacket | recisdb-proxy/src/ts_analyzer/analyzer.rs:213-232 | one turn at a sync byte processes and counts the packet, and stops when the analyzer is done |
| Analyzer.SkipToSync | recisdb-proxy/src/ts_analyzer/analyzer.rs:198-200 | the search stops at the next sync byte or the end (see also analyzer.rs lines 207-209) |
| Analyzer.FeedFromSync | recisdb-proxy/src/ts_analyzer/analyzer.rs:194-236 | feeding from a position is feeding from the next sync byte |
| Analyzer.SyncFromBounds | recisdb-proxy/src/ts_analyzer/analyzer.rs:203 | with no whole packet left there is nothing more to feed |
| StreamQuality.Add | recisdb-proxy/src/tuner/ts_analyzer.rs:57-83 | counters add counter by counter |
| StreamQuality.SumBounded | recisdb-proxy/src/tuner/ts_analyzer.rs:92-94 | the running totals never count more drops, scrambled or damaged packets than packets |
| StreamQuality.NextCc | recisdb-proxy/src/tuner/ts_analyzer.rs:78 | the expected counter is the last plus one modulo 16 |
| StreamQuality.PacketDelta | recisdb-proxy/src/tuner/ts_analyzer.rs:51-85 | a packet counts once, once more as damaged iff its error flag is set, as scrambled iff scrambled, as dropped iff its counter does not follow the last one on its PID; the null PID and packets without payload leave the counter memory alone |
| StreamQuality.AnalyzeCounts | recisdb-proxy/src/tuner/ts_analyzer.rs:39-89 | every chunk led by the sync byte is counted once and every other counter is bounded by that count |
| StreamQuality.SyncedChunksBound | recisdb-proxy/src/tuner/ts_analyzer.rs:43-49 | at most one packet per whole chunk |
| StreamQuality.ConsecutiveCounters | recisdb-proxy/src/tuner/ts_analyzer.rs:78-85 | after a packet on a PID, the next on it is a drop iff its counter does not follow |
| StreamQuality.TsPacketAnalyzer.constructor | recisdb-proxy/src/tuner/ts_analyzer.rs:34-36 | zero counters and no counter memory |
| StreamQuality.TsPacketAnalyzer.Analyze | recisdb-proxy/src/tuner/ts_analyzer.rs:39-89 | the delta and memory are those of the chunks of the data, and the totals grow by the delta |
| StreamQuality.TsPacketAnalyzer.Snapshot | recisdb-proxy/src/tuner/ts_analyzer.rs:92-94 | the totals are the sum of every delta so far, and bounded |
| StreamQuality.TsPacketAnalyzer.Reset | recisdb-proxy/src/tuner/ts_analyzer.rs:97-100 | zero counters and no counter memory |
| StreamQuality.Count | recisdb-proxy/src/tuner/ts_analyzer.rs:42-86 | the loop computes the counters and memory of the whole data |
| StreamQuality.AddAssociative | recisdb-proxy/src/tuner/ts_analyzer.rs:57-83 | counter sums can be regrouped |
| MinimalTsParsing.EscapeScan | recisdb-proxy/src/tuner/ts_parser.rs:465-471 | after an opening escape, the text starts at most three bytes on, at the next escape or at the end, with no escape skipped over |
| MinimalTsParsing.TextStart | recisdb-proxy/src/tuner/ts_parser.rs:465-474 | the text starts at byte 0 unless the data opens with an escape, and never past byte 4 |
| MinimalTsParsing.TrimNul | recisdb-proxy/src/tuner/ts_parser.rs:485 | a prefix with no trailing NUL, having dropped only NULs (see also ts_parser.rs line 489) |
| MinimalTsParsing.TsText | recisdb-proxy/src/tuner/ts_parser.rs:459-492 | no text iff the field is empty or all escape sequence |
| MinimalTsParsing.TextIsLossy | recisdb-proxy/src/tuner/ts_parser.rs:484-490 | both branches give the lossy UTF-8 conversion of the bytes after the escape, without trailing NULs |
| MinimalTsParsing.DecodeText | recisdb-proxy/src/tuner/ts_parser.rs:459-492 | the escape-skipping loop computes that text |
| MinimalTsParsing.TextOfUtf8 | recisdb-proxy/src/tuner/ts_parser.rs:459-492 | UTF-8 text not starting with an escape reads back unchanged, with or without a trailing NUL |
| MinimalTsParsing.EntriesEnd | recisdb-proxy/src/tuner/ts_parser.rs:254 | the entries end at the section end less the CRC, within the data (see also ts_parser.rs line 334) |
| MinimalTsParsing.PatServicesContents | recisdb-proxy/src/tuner/ts_parser.rs:256-272 | the loop keeps every service it is given, registers every nonzero program number, and adds nothing else |
| MinimalTsParsing.ReadPatServices | recisdb-proxy/src/tuner/ts_parser.rs:253-272 | the loop computes those services |
| MinimalTsParsing.PatStep | recisdb-proxy/src/tuner/ts_parser.rs:241-273 | a section shorter than eight bytes or not a PAT changes nothing; otherwise the stream id and the PAT flag are set; network fields and other flags are kept |
| MinimalTsParsing.NetworkNameLastWins | recisdb-proxy/src/tuner/ts_parser.rs:308-313 | the last descriptor that names the network decides the name |
| MinimalTsParsing.DescriptorListAt | recisdb-proxy/src/tuner/ts_parser.rs:300-306 | the descriptor at the offset, when it fits, and the ones after it (see also ts_parser.rs line 315) |
| MinimalTsParsing.DescriptorListEnd | recisdb-proxy/src/tuner/ts_parser.rs:300-306 | the list ends where the next descriptor does not fit |
| MinimalTsParsing.NetworkNameStep | recisdb-proxy/src/tuner/ts_parser.rs:300-316 | one turn takes the descriptor at the offset into the name |
| MinimalTsParsing.TakeNetworkName | recisdb-proxy/src/tuner/ts_parser.rs:308-313 | one turn's body |
| MinimalTsParsing.ReadNetworkName | recisdb-proxy/src/tuner/ts_parser.rs:297-317 | the loop computes the name the descriptor list decides |
| MinimalTsParsing.NitStep | recisdb-proxy/src/tuner/ts_parser.rs:276-294 | a section shorter than ten bytes or not a NIT changes nothing; otherwise the network id and NIT flag are set; the stream id, services and other flags are kept |
| MinimalTsParsing.DescribedRecord | recisdb-proxy/src/tuner/ts_parser.rs:392-407 | a service descriptor sets the type and replaces each name it carries, keeping the old one otherwise |
| MinimalTsParsing.UndescribedServiceUnchanged | recisdb-proxy/src/tuner/ts_parser.rs:357-412 | a service without a service descriptor is not added or changed |
| MinimalTsParsing.ServiceDescriptorStep | recisdb-proxy/src/tuner/ts_parser.rs:360-411 | one turn takes the descriptor at the offset into the records |
| MinimalTsParsing.TakeServiceDescriptor | recisdb-proxy/src/tuner/ts_parser.rs:368-408 | one turn's body |
| MinimalTsParsing.ReadServiceDescriptors | recisdb-proxy/src/tuner/ts_parser.rs:357-412 | the loop computes the records the descriptor list gives |
| MinimalTsParsing.ReadProviderName | recisdb-proxy/src/tuner/ts_parser.rs:373-378 | the provider name when its field is non-empty and fits |
| MinimalTsParsing.ReadServiceName | recisdb-proxy/src/tuner/ts_parser.rs:380-390 | the service name when its length byte and field fit |
| MinimalTsParsing.UpdateService | recisdb-proxy/src/tuner/ts_parser.rs:368-408 | one service descriptor's names decoded and stored |
| MinimalTsParsing.SdtServicesKeep | recisdb-proxy/src/tuner/ts_parser.rs:336-353 | the service loop drops no service record |
| MinimalTsParsing.ReadSdtServices | recisdb-proxy/src/tuner/ts_parser.rs:333-353 | the loop computes the services described |
| MinimalTsParsing.SdtStep | recisdb-proxy/src/tuner/ts_parser.rs:320-354 | a section shorter than eleven bytes or not an SDT changes nothing; otherwise the SDT flag is set and the original network id becomes the network id only when none is known |
| MinimalTsParsing.SectionLengthCovered | recisdb-proxy/src/tuner/ts_parser.rs:211-224 | a section handed out has the length its header announces, so the entry loops stay inside it |
| MinimalTsParsing.PayloadStep | recisdb-proxy/src/tuner/ts_parser.rs:165-202 | the buffer of the PID exists afterwards |
| MinimalTsParsing.GapClearsBuffer | recisdb-proxy/src/tuner/ts_parser.rs:186-195 | a continuation whose counter does not follow empties the buffer, keeping the result, the counter and every other buffer |
| MinimalTsParsing.PayloadStart | recisdb-proxy/src/tuner/ts_parser.rs:141-154 | the payload starts after the header (control 1), after the adaptation field (control 3), or nowhere |
| MinimalTsParsing.IrrelevantPacketsIgnored | recisdb-proxy/src/tuner/ts_parser.rs:130-138 | damaged, scrambled and null packets, and packets on other PIDs, change nothing |
| MinimalTsParsing.PayloadlessPacketsIgnored | recisdb-proxy/src/tuner/ts_parser.rs:141-158 | packets without a payload change nothing |
| MinimalTsParsing.FeedSkips | recisdb-proxy/src/tuner/ts_parser.rs:104-107 | a byte that is not the sync byte is passed over |
| MinimalTsParsing.ServiceEntry | recisdb-proxy/src/tuner/ts_parser.rs:432-447 | the entry of one service: its id, type and name (as both raw and channel name), the network name, a missing network or stream id as 0, and every field the parser does not learn unset |
| MinimalTsParsing.ChannelInfos | recisdb-proxy/src/tuner/ts_parser.rs:425-449 | for an order that lists every service id exactly once, as the map's iteration does: as many entries as services, every service has exactly its entry, in that order |
| MinimalTsParsing.StepsKeepKeys | recisdb-proxy/src/tuner/ts_parser.rs:262-268 | the PAT and SDT steps keep every service keyed by its own id (see also ts_parser.rs lines 392-399) |
| MinimalTsParsing.SdtServicesKeyed | recisdb-proxy/src/tuner/ts_parser.rs:336-353 | the service loop keeps services keyed by their own id |
| MinimalTsParsing.DescribeKeyed | recisdb-proxy/src/tuner/ts_parser.rs:392-399 | the descriptors of one service keep services keyed by their own id |
| MinimalTsParsing.MinimalTsParser.constructor | recisdb-proxy/src/tuner/ts_parser.rs:87-89 | a new parser is in the initial state and not complete |
| MinimalTsParsing.MinimalTsParser.Reset | recisdb-proxy/src/tuner/ts_parser.rs:452-455 | back to the initial state |
| MinimalTsParsing.MinimalTsParser.IsComplete | recisdb-proxy/src/tuner/ts_parser.rs:415-417 | complete iff a PAT and a NIT or an SDT have been seen |
| MinimalTsParsing.MinimalTsParser.ParsePat | recisdb-proxy/src/tuner/ts_parser.rs:241-273 | the result is the PAT step of the old; buffers unchanged |
| MinimalTsParsing.MinimalTsParser.ParseNit | recisdb-proxy/src/tuner/ts_parser.rs:276-294 | the result is the NIT step of the old; buffers unchanged |
| MinimalTsParsing.MinimalTsParser.ParseSdt | recisdb-proxy/src/tuner/ts_parser.rs:320-354 | the result is the SDT step of the old; buffers unchanged |
| MinimalTsParsing.MinimalTsParser.TryParseSection | recisdb-proxy/src/tuner/ts_parser.rs:205-238 | the new state is that of handing out the buffered section of the PID |
| MinimalTsParsing.MinimalTsParser.ProcessPayload | recisdb-proxy/src/tuner/ts_parser.rs:165-202 | the new state is the payload step of the old |
| MinimalTsParsing.MinimalTsParser.ProcessPacket | recisdb-proxy/src/tuner/ts_parser.rs:117-162 | the new state is the packet step of the old |
| MinimalTsParsing.MinimalTsParser.Feed | recisdb-proxy/src/tuner/ts_parser.rs:94-114 | the new state is the feed of the data, and the answer is whether the parser is complete |
| B25Resync.SyncOffsetFrom | recisdb-proxy/src/tuner/b25_pipe.rs:22-36 | a found start is below 188, at or after where the search began, and leaves room for five packets |
| B25Resync.SyncOffset | recisdb-proxy/src/tuner/b25_pipe.rs:16-38 | a found offset is below 188 and leaves room for five packets |
| B25Resync.SyncOffsetFromLeast | recisdb-proxy/src/tuner/b25_pipe.rs:22-36 | the start found is the least one from there with the sync byte at five 188-spaced positions; none iff there is none |
| B25Resync.SyncOffsetLeast | recisdb-proxy/src/tuner/b25_pipe.rs:16-38 | none on fewer than five packets' worth of bytes; otherwise the least aligned start below 188, or none iff there is none |
| B25Resync.CheckAligned | recisdb-proxy/src/tuner/b25_pipe.rs:26-32 | the inner loop answers whether the five packets from the start all begin with the sync byte |
| B25Resync.FindTsSyncOffset | recisdb-proxy/src/tuner/b25_pipe.rs:16-38 | the search loops compute that offset |
| B25Resync.OfferFacts | recisdb-proxy/src/tuner/b25_pipe.rs:85-114 | only whole packets are offered, less than a packet stays, offered bytes and stash are a suffix of the stash in order, and the write fails iff the decoder refuses a non-empty write |
| B25Resync.ResyncOfferFacts | recisdb-proxy/src/tuner/b25_pipe.rs:69-72 | after resynchronising, the offered packets start with the sync byte and stay in order (see also b25_pipe.rs lines 85-114) |
| B25Resync.PushFacts | recisdb-proxy/src/tuner/b25_pipe.rs:63-114 | after a push the stash holds less than a packet; what was offered is whole packets led by the sync byte; offered bytes and stash are a suffix of old stash plus input, in order; a failed write empties the stash |
| B25Resync.UnsyncedStashTrimmed | recisdb-proxy/src/tuner/b25_pipe.rs:73-80 | without an alignment nothing is offered and the stash keeps at most its last 187 bytes |
| B25Resync.AlignedPacketsPassThrough | recisdb-proxy/src/tuner/b25_pipe.rs:63-114 | an aligned run of whole packets is offered in one push and nothing stays behind |
| B25Resync.B25Pipe.constructor | recisdb-proxy/src/tuner/b25_pipe.rs:47-55 | a new pipe has an empty stash |
| B25Resync.B25Pipe.Reset | recisdb-proxy/src/tuner/b25_pipe.rs:57-60 | a reset pipe has an empty stash |
| B25Resync.B25Pipe.Drain | recisdb-proxy/src/tuner/b25_pipe.rs:72 | the stash keeps the bytes from the given index on (see also b25_pipe.rs line 105) |
| B25Resync.B25Pipe.Push | recisdb-proxy/src/tuner/b25_pipe.rs:63-114 | the new stash, the bytes given to the decoder and the failure are those of the push step |
| SpaceGeneration.InferRegion | recisdb-proxy/src/tuner/space_generator.rs:282-368 | a network id outside 0x7F00-0x7FFF is "その他"; a prefectural id from 0x7F08 to 0x7F35 names its prefecture |
| SpaceGeneration.RegionSortKey | recisdb-proxy/src/tuner/space_generator.rs:371-421 | a name's key is its place in the prefecture order, and 255 exactly for names outside it |
| SpaceGeneration.RegionIndex | recisdb-proxy/src/tuner/space_generator.rs:105-108 | the first region with the name, none iff none has it |
| SpaceGeneration.PlaceIn | recisdb-proxy/src/tuner/space_generator.rs:105-134 | placing an entry touches only its own band |
| SpaceGeneration.PlaceInExisting | recisdb-proxy/src/tuner/space_generator.rs:110-118 | an entry of an existing region extends only that region, with its network id and its entry |
| SpaceGeneration.PlaceInNew | recisdb-proxy/src/tuner/space_generator.rs:119-134 | an entry with a new region name opens one region at the end |
| SpaceGeneration.PlaceInNames | recisdb-proxy/src/tuner/space_generator.rs:105-134 | region names of a band are kept, the new name added at the end |
| SpaceGeneration.NamesDistinctStep | recisdb-proxy/src/tuner/space_generator.rs:105-134 | the region names of a band stay distinct |
| SpaceGeneration.AddChannelStep | recisdb-proxy/src/tuner/space_generator.rs:86-135 | one turn of the grouping loop keeps every channel in the region of its band and name, and nothing else |
| SpaceGeneration.GroupedFacts | recisdb-proxy/src/tuner/space_generator.rs:86-135 | the grouping keeps every channel, each in the region of its band and name, and nothing else |
| SpaceGeneration.FindRegion | recisdb-proxy/src/tuner/space_generator.rs:105-108 | the search finds the first region with the name |
| SpaceGeneration.GroupChannels | recisdb-proxy/src/tuner/space_generator.rs:83-135 | the grouping loop computes that grouping |
| SpaceGeneration.Place | recisdb-proxy/src/tuner/space_generator.rs:104-134 | the loop body extends the found region or opens a new one |
| SpaceGeneration.SortedUnique | recisdb-proxy/src/tuner/space_generator.rs:170-177 | the tuner spaces collected through a set: distinct and ascending, exactly those of the channels |
| SpaceGeneration.SortBy | recisdb-proxy/src/tuner/space_generator.rs:156 | the regions sorted by key are the same regions in key order |
| SpaceGeneration.ActualSpacesOf | recisdb-proxy/src/tuner/space_generator.rs:170-177 | the actual spaces of a virtual space are its channels' tuner spaces, distinct and ascending, never none for a region with channels |
| SpaceGeneration.AddReverseFacts | recisdb-proxy/src/tuner/space_generator.rs:194-199 | each actual space of the new virtual space gains its number once; no other list changes |
| SpaceGeneration.EmitRegionConsistent | recisdb-proxy/src/tuner/space_generator.rs:164-207 | emitting a region keeps the numbering from 0 and the reverse lookup right |
| SpaceGeneration.BandRank | recisdb-proxy/src/tuner/space_generator.rs:143-149 | the band order is terrestrial, BS, CS, 4K, other |
| SpaceGeneration.EmitRegionsExtends | recisdb-proxy/src/tuner/space_generator.rs:159-208 | the region loop only appends, spaces of its band, at most one per region |
| SpaceGeneration.EmitRegionsConsistent | recisdb-proxy/src/tuner/space_generator.rs:159-208 | the region loop keeps the numbering and the reverse lookup right |
| SpaceGeneration.EmitRegionsDescribe | recisdb-proxy/src/tuner/space_generator.rs:159-208 | each space emitted holds exactly the channels of its band and name |
| SpaceGeneration.EmitRegionsSorted | recisdb-proxy/src/tuner/space_generator.rs:155-159 | terrestrial spaces come out in key order |
| SpaceGeneration.EmitRegionsCovers | recisdb-proxy/src/tuner/space_generator.rs:159-208 | every region with channels gets a space, and spaces already there stay |
| SpaceGeneration.OrderedRegionsFacts | recisdb-proxy/src/tuner/space_generator.rs:154-157 | the regions of a band in emission order are those of the grouping, sorted by key for terrestrial |
| SpaceGeneration.SingleRegion | recisdb-proxy/src/tuner/space_generator.rs:101 | a band other than terrestrial has one region, named after the band |
| SpaceGeneration.EmitBandStep | recisdb-proxy/src/tuner/space_generator.rs:151-210 | each band's spaces extend what the band loop keeps |
| SpaceGeneration.EmitBandsFromFacts | recisdb-proxy/src/tuner/space_generator.rs:151-210 | the band loop ends with everything it keeps, over all five bands |
| SpaceGeneration.Generated | recisdb-proxy/src/tuner/space_generator.rs:82-218 | the spaces are numbered from 0 with a matching reverse lookup, and each holds exactly the channels of its band and name |
| SpaceGeneration.PermutedNamesDistinct | recisdb-proxy/src/tuner/space_generator.rs:156 | sorting the regions keeps their names distinct |
| SpaceGeneration.OrderedNamesDistinct | recisdb-proxy/src/tuner/space_generator.rs:151-158 | the regions of a band in emission order give distinct space names |
| SpaceGeneration.EmitRegionsDistinct | recisdb-proxy/src/tuner/space_generator.rs:159-208 | regions with distinct names new to their band add spaces no two of which share band and name |
| SpaceGeneration.EmitBandDistinct | recisdb-proxy/src/tuner/space_generator.rs:151-210 | one band's spaces keep band and name unique |
| SpaceGeneration.EmitBandsFromDistinct | recisdb-proxy/src/tuner/space_generator.rs:151-210 | the band loop keeps band and name unique |
| SpaceGeneration.GeneratedFacts | recisdb-proxy/src/tuner/space_generator.rs:82-218 | spaces numbered from 0 with a matching reverse lookup; each holding exactly the channels of its band and name; in band order, terrestrial regions by key, one space for each other band; a space for every channel of the five bands; no two spaces share both band and name |
| SpaceGeneration.ChannelsInMembers | recisdb-proxy/src/tuner/space_generator.rs:110-133 | a space's entries are those of the channels in its band and region |
| SpaceGeneration.GeneratedPlacement | recisdb-proxy/src/tuner/space_generator.rs:143-152 | a channel gets a virtual space iff its band is one of the five of the band order, so CATV and SKY channels get none |
| SpaceGeneration.PushReverse | recisdb-proxy/src/tuner/space_generator.rs:194-199 | the reverse-lookup loop adds the space number to each actual space |
| SpaceGeneration.EmitAll | recisdb-proxy/src/tuner/space_generator.rs:159-208 | the region loop emits every region with channels as the next space, numbered by the running counter |
| SpaceGeneration.GenerateFromChannels | recisdb-proxy/src/tuner/space_generator.rs:82-218 | the method computes the generated spaces |
| SpaceGeneration.GetVirtualSpaceNumbered | recisdb-proxy/src/tuner/space_generator.rs:221-225 | virtual space v is the v-th mapping, and none past the last |
| SpaceGeneration.VirtualSpacesNumbered | recisdb-proxy/src/tuner/space_generator.rs:228-230 | the virtual spaces are 0 up to their count |
| SpaceGeneration.ActualSpacesUsed | recisdb-proxy/src/tuner/space_generator.rs:233-238 | the actual spaces are exactly those some virtual space uses |
| SpaceGeneration.MapVirtualToActualLeast | recisdb-proxy/src/tuner/space_generator.rs:242-245 | every generated virtual space maps to the least tuner space among its channels; no other number maps |
| SpaceGeneration.VirtualSpacesForActualExact | recisdb-proxy/src/tuner/space_generator.rs:248-253 | the virtual spaces listed for an actual space are exactly those that use it, ascending |
| SpaceGeneration.EnumChannelsInSpace | recisdb-proxy/src/tuner/space_generator.rs:256-267 | the distinct tuner channels of the space, ascending, each named CH and its number; none for an unknown space |
| SpaceGeneration.GenerateEmpty | recisdb-proxy/src/tuner/space_generator.rs:428-431 | no channels, no virtual spaces |
| SpaceGeneration.GenerateSingleTerrestrial | recisdb-proxy/src/tuner/space_generator.rs:434-451 | one terrestrial channel gives virtual space 0, terrestrial, named 東京 |
| SpaceGeneration.MixedBandsAsWritten | recisdb-proxy/src/tuner/space_generator.rs:454-494 | the example as written: its network ids 0x4011 and 0x6001 are both of the other band, so two spaces, not three |
| SpaceGeneration.MixedBandsCorrected | recisdb-proxy/src/tuner/space_generator.rs:454-494 | with BS and CS network ids the example gives three spaces: terrestrial, BS, CS |
| ChannelKeys.SimpleKey | recisdb-proxy/src/tuner/channel_key.rs:35-40 | the key holds the path and the channel number, in the simple form |
| ChannelKeys.SpaceChannelKey | recisdb-proxy/src/tuner/channel_key.rs:43-48 | the key holds the path, the space and the channel, in the space form |
| ChannelKeys.SimpleKeyEquality | recisdb-proxy/src/tuner/channel_key.rs:9-24 | two simple keys are equal iff path and number are |
| ChannelKeys.SpaceChannelKeyEquality | recisdb-proxy/src/tuner/channel_key.rs:9-24 | two space keys are equal iff path, space and channel are |
| ChannelKeys.GenerationsDiffer | recisdb-proxy/src/tuner/channel_key.rs:18-24 | a simple key never equals a space key |
| ChannelKeys.SpecWrites | recisdb-proxy/src/tuner/channel_key.rs:18 | the derived hash writes the discriminant first |
| ChannelKeys.HashWrites | recisdb-proxy/src/tuner/channel_key.rs:26-31 | the hash writes the path, then the spec |
| ChannelKeys.SpecWritesInjective | recisdb-proxy/src/tuner/channel_key.rs:18-24 | the spec's writes determine the spec |
| ChannelKeys.HashAgreesWithEquality | recisdb-proxy/src/tuner/channel_key.rs:9-31 | two keys feed the hasher the same values iff they are equal |
| ChannelKeys.KeyEqualityExamples | recisdb-proxy/src/tuner/channel_key.rs:57-66 | same path and number equal; another number or path not |
| ChannelTable.Stored | recisdb-proxy/src/database/channel.rs:448-455 | the stored record keeps the channel's key and names; the band type defaults to the one its NID implies, the region to the prefecture its NID implies |
| ChannelTable.ExistingOf | recisdb-proxy/src/database/channel.rs:425-432 | the existing records are exactly the driver's records |
| ChannelTable.Stale | recisdb-proxy/src/database/channel.rs:556-564 | the records to disable are exactly the enabled existing ones whose key the scan did not see |
| ChannelTable.CountIn | recisdb-proxy/src/database/channel.rs:457 | at most one count per scanned channel |
| ChannelTable.ScanAllCounts | recisdb-proxy/src/database/channel.rs:445-554 | each scanned channel is counted once: updated when its key existed, inserted otherwise; one new row and id per insert |
| ChannelTable.ScanStepExtends | recisdb-proxy/src/database/channel.rs:457-553 | one scanned channel extends the table by its key and keeps ids valid |
| ChannelTable.ScanStepCovers | recisdb-proxy/src/database/channel.rs:457-553 | one scanned channel leaves an enabled record for its key |
| ChannelTable.CoveredStep | recisdb-proxy/src/database/channel.rs:445-554 | a step keeps every enabled record it does not touch |
| ChannelTable.StartKeysExtends | recisdb-proxy/src/database/channel.rs:457-521 | records updated in place keep their keys |
| ChannelTable.ScanAllExtends | recisdb-proxy/src/database/channel.rs:445-554 | the scan loop extends the table by the scanned keys and keeps ids valid |
| ChannelTable.ScanAllCovers | recisdb-proxy/src/database/channel.rs:445-554 | after the scan loop every scanned key has an enabled record of the driver |
| ChannelTable.KeysBoundExtends | recisdb-proxy/src/database/channel.rs:445-554 | the keys the driver's records may have grow only by the scanned keys |
| ChannelTable.EarlierScanned | recisdb-proxy/src/database/channel.rs:522-553 | a record inserted during the scan comes from an earlier scanned channel with its key |
| ChannelTable.ScanStep | recisdb-proxy/src/database/channel.rs:445-554 | an existing key is always updated in place and counted as updated; a new key appends one record of the driver with the next id and is counted as inserted; it fails iff the key is new and either the UNIQUE constraint or the foreign key is broken, with that error |
| ChannelTable.ScanAllErr | recisdb-proxy/src/database/channel.rs:524-551 | a failed scan is a UNIQUE violation only when two scanned channels with a manual sheet share a new key, and a foreign-key violation only for a driver id missing from `bon_drivers` when some scanned key is new |
| ChannelTable.ScanAllFailsAt | recisdb-proxy/src/database/channel.rs:524-551 | an insert of a new key that repeats an earlier manual-sheet key, or is for a driver id missing from `bon_drivers`, fails the scan |
| ChannelTable.ScanAllStopsAtError | recisdb-proxy/src/database/channel.rs:524-551 | the first failed statement fails the whole scan, with its error |
| ChannelTable.DisableAllFacts | recisdb-proxy/src/database/channel.rs:556-571 | the disable loop disables exactly the records with a stale record's id, and counts the stale records |
| ChannelTable.StartKeysOfExisting | recisdb-proxy/src/database/channel.rs:434-437 | each key read before the merge has a record, and no other key does |
| ChannelTable.StaleIdsElsewhere | recisdb-proxy/src/database/channel.rs:556-571 | no stale id belongs to a record of another driver or to one the scan covered |
| ChannelTable.MergeUnfold | recisdb-proxy/src/database/channel.rs:417-575 | a merge that succeeds is its scan loop followed by its disable loop |
| ChannelTable.Merge | recisdb-proxy/src/database/channel.rs:417-575 | on success inserted plus updated is the number scanned; updated counts the existing keys; disabled counts the stale records; one row and one id per insert; the driver ids are unchanged |
| ChannelTable.CoveredAfterDisable | recisdb-proxy/src/database/channel.rs:556-571 | disabling stale records keeps an enabled record for every scanned key |
| ChannelTable.ValidAfterDisable | recisdb-proxy/src/database/channel.rs:556-571 | disabling records keeps their ids |
| ChannelTable.MergeCovers | recisdb-proxy/src/database/channel.rs:417-575 | after a merge the ids are valid and every scanned key has an enabled record of the driver |
| ChannelTable.MergeKeeps | recisdb-proxy/src/database/channel.rs:417-575 | other drivers' records are unchanged; the driver's unseen records are disabled and otherwise unchanged |
| ChannelTable.MergeErr | recisdb-proxy/src/database/channel.rs:417-575 | a merge fails iff two scanned channels with one manual sheet share a key the driver did not have, or the driver id is missing from `bon_drivers` and some scanned key is new; which error follows the same cases (see also schema.rs line 62) |
| ChannelTable.MergeDistinctSucceeds | recisdb-proxy/src/database/channel.rs:417-575 | a scan with distinct keys for a driver id that `bon_drivers` holds always merges |
| ChannelTable.MergeUnknownDriver | recisdb-proxy/src/database/schema.rs:62 | for a driver id missing from `bon_drivers` a merge fails iff some scanned key is new to the driver, since only inserts carry the foreign key |
| ChannelTable.ScanChannels | recisdb-proxy/src/database/channel.rs:445-554 | the first loop computes the scan, stopping at the first failed statement |
| ChannelTable.DisableStale | recisdb-proxy/src/database/channel.rs:556-571 | the second loop computes the disabled table and count |
| ChannelTable.ChannelDatabase.constructor | recisdb-proxy/src/database/schema.rs:29-62 | an empty table whose first id is 1 |
| ChannelTable.ChannelDatabase.AddDriver | recisdb-proxy/src/database/bon_driver.rs:19-25 | a new `bon_drivers` id is known afterwards; the channel records and the next id are unchanged |
| ChannelTable.ChannelDatabase.MergeScanResults | recisdb-proxy/src/database/channel.rs:417-575 | on success the table and counters are those of the merge; on failure the transaction rolls back and nothing changes |
| ChannelTable.ChannelDatabase.UpdateChannelFields | recisdb-proxy/src/database/channel.rs:369-405 | only the given fields of the record with the id change |
| ChannelTable.NoFieldsNoChange | recisdb-proxy/src/database/channel.rs:392-394 | with no field given nothing is written |
| ChannelTable.UpdateFieldsEffect | recisdb-proxy/src/database/channel.rs:369-405 | only the record with the id changes, and only its given fields; the table stays valid |
| ChannelTable.SpaceNameOfBand | recisdb-proxy/src/database/channel.rs:705-719 | band codes are named by their band, SKY for code 6 |
| ChannelTable.SpaceNameOfRegion | recisdb-proxy/src/database/channel.rs:707-710 | a terrestrial space with a region is named by it |
| ChannelTable.SpaceNameFallback | recisdb-proxy/src/database/channel.rs:717 | other spaces are "Space n", from which n reads back, unlike every band name |
| ChannelTable.ScanAllSnoc | recisdb-proxy/src/database/channel.rs:445-554 | the scan loop over one more channel is one more step |
| ChannelTable.DisableAllSnoc | recisdb-proxy/src/database/channel.rs:557-571 | the disable loop over one more record |
| ChannelTable.FirstScanInserts | recisdb-proxy/src/database/channel.rs:875-885 | the first scan of three channels inserts three records, ids 1 to 3 |
| ChannelTable.SecondScanLoop | recisdb-proxy/src/database/channel.rs:887-897 | the second scan's loop updates two records and inserts one |
| ChannelTable.SecondScanDisable | recisdb-proxy/src/database/channel.rs:892-905 | only the missing record is disabled |
| ChannelTable.SecondScanUpdates | recisdb-proxy/src/database/channel.rs:887-905 | the second scan: one inserted, two updated, one disabled, and that one not enabled |
| ChannelTable.RepeatedChannel | recisdb-proxy/src/database/schema.rs:61 | a repeated channel without a manual sheet is inserted twice; with one the merge fails and rolls back |
| ScanResults.DefaultConfig | recisdb-proxy/src/scheduler/scan_scheduler.rs:45-53 | a check every 60 seconds, one scan at a time, a 900-second scan timeout |
| ScanResults.EntryCount | recisdb-proxy/src/scheduler/scan_scheduler.rs:659-679 | a scanned channel gives at least one entry |
| ScanResults.EntriesFacts | recisdb-proxy/src/scheduler/scan_scheduler.rs:655-679 | each entry carries the channel's NID and TSID or 0, and where it was tuned; with services one entry per service, named by it or by the channel; without, one entry with service id 0; no other field set |
| ScanResults.EntriesLength | recisdb-proxy/src/scheduler/scan_scheduler.rs:659-679 | one entry per service, or one without services |
| ScanResults.Flatten | recisdb-proxy/src/scheduler/scan_scheduler.rs:650-683 | the entries of every result in order; the length is the sum of the entry counts, never fewer than the results |
| ScanResults.FlattenIndex | recisdb-proxy/src/scheduler/scan_scheduler.rs:650-683 | entry k of result i follows the entries of the results before it |
| ScanResults.ToChannelInfos | recisdb-proxy/src/scheduler/scan_scheduler.rs:650-683 | the loops push exactly those entries, in order |
| ScanChannelList.ParseRange | recisdb-rs/src/commands/database.rs:117-129 | a parsed range holds two i32 values, neither negative |
| ScanChannelList.ParsePart | recisdb-rs/src/commands/database.rs:120-124 | a piece parses to an i32 that is not negative |
| ScanChannelList.ParseRangeFormatted | recisdb-rs/src/commands/database.rs:117-129 | "a-b" parses back to (a, b) and "n" to (n, n) |
| ScanChannelList.ParseRangeRejectsMoreDashes | recisdb-rs/src/commands/database.rs:126-127 | three or more pieces give None |
| ScanChannelList.ScanTargets | recisdb-rs/src/commands/database.rs:62-114 | every target is of a kind the broadcast type selects; BS or CS alone gives twelve targets; terrestrial alone one per channel of the range |
| ScanChannelList.TerrestrialTargetsFacts | recisdb-rs/src/commands/database.rs:77-80 | the channels start to end inclusive, in order, each named T and its number; none when start exceeds end |
| ScanChannelList.BsTargetsFacts | recisdb-rs/src/commands/database.rs:88-94 | the twelve odd channels 1 to 23, each named BS and two digits |
| ScanChannelList.CsTargetsFacts | recisdb-rs/src/commands/database.rs:102-108 | the twelve even channels 2 to 24, each named CS and its number |
| ScanChannelList.BadRangeIsDefault | recisdb-rs/src/commands/database.rs:71-75 | a range that does not parse falls back to 13-62, as no range does |
| ScanChannelList.DefaultAllCount | recisdb-rs/src/commands/database.rs:62-114 | "all" by default is 50 terrestrial, then 12 BS, then 12 CS channels |
| ScanChannelList.PushTerrestrial | recisdb-rs/src/commands/database.rs:77-80 | the terrestrial loop appends those channels |
| ScanChannelList.PushBs | recisdb-rs/src/commands/database.rs:88-94 | the BS loop appends those channels |
| ScanChannelList.PushCs | recisdb-rs/src/commands/database.rs:102-108 | the CS loop appends those channels |
| ScanChannelList.GenerateScanChannels | recisdb-rs/src/commands/database.rs:62-114 | the method computes the targets of the broadcast type and range |
| BonDriverBridge.Unguarded | recisdb-rs/src/tuner/windows/vtable_resolver/IBonDriver1.cpp:5-7 | without a handler an exception unwinds iff the call throws |
| BonDriverBridge.Guarded | recisdb-rs/src/tuner/windows/vtable_resolver/IBonDriver1.cpp:5-7 | a guarded call always returns: the driver's value, or the sentinel on a fault |
| BonDriverBridge.GuardedIsUnguardedWithoutFault | recisdb-rs/src/tuner/windows/vtable_resolver/IBonDriver1.cpp:5-7 | the handler changes no call that returns and stops every one that throws |
| BonDriverBridge.InterfaceCheck2 | recisdb-rs/src/tuner/windows/IBonDriver.cpp:8-11 | the same pointer iff the object implements IBonDriver2 and the cast does not fault; null otherwise (see also IBonDriver.cpp lines 16-19) |
| BonDriverBridge.InterfaceCheck3 | recisdb-rs/src/tuner/windows/IBonDriver.cpp:12-15 | the same pointer iff the object implements IBonDriver3 and the cast does not fault; null otherwise (see also IBonDriver.cpp lines 20-23) |
| BonDriverBridge.ProbeChain | recisdb-rs/src/tuner/windows/IBonDriver.cpp:8-23 | probing 3 through the probe for 2 finds exactly the IBonDriver3 objects; a faulting cast gives null; a probe returns its pointer or null |
| BonDriverBridge.COpenTuner | recisdb-rs/src/tuner/windows/vtable_resolver/IBonDriver1.cpp:5-7 | the driver's BOOL, FALSE on a fault |
| BonDriverBridge.CCloseTuner | recisdb-rs/src/tuner/windows/vtable_resolver/IBonDriver1.cpp:8-10 | returns, fault or not |
| BonDriverBridge.CSetChannel | recisdb-rs/src/tuner/windows/vtable_resolver/IBonDriver1.cpp:12-14 | the driver's BOOL, FALSE on a fault |
| BonDriverBridge.CGetSignalLevel | recisdb-rs/src/tuner/windows/vtable_resolver/IBonDriver1.cpp:15-17 | the driver's level, -1.0 on a fault |
| BonDriverBridge.CWaitTsStream | recisdb-rs/src/tuner/windows/vtable_resolver/IBonDriver1.cpp:19-21 | the driver's result, 0 on a fault |
| BonDriverBridge.CGetReadyCount | recisdb-rs/src/tuner/windows/vtable_resolver/IBonDriver1.cpp:22-24 | the driver's count, 0 on a fault |
| BonDriverBridge.CGetTsStream | recisdb-rs/src/tuner/windows/vtable_resolver/IBonDriver1.cpp:27-29 | the driver's BOOL, FALSE on a fault |
| BonDriverBridge.CGetTsStreamPtr | recisdb-rs/src/tuner/windows/vtable_resolver/IBonDriver1.cpp:32-34 | the driver's BOOL, FALSE on a fault |
| BonDriverBridge.CPurgeTsStream | recisdb-rs/src/tuner/windows/vtable_resolver/IBonDriver1.cpp:36-38 | returns, fault or not |
| BonDriverBridge.CRelease | recisdb-rs/src/tuner/windows/vtable_resolver/IBonDriver1.cpp:39-41 | returns, fault or not |
| BonDriverBridge.CEnumTuningSpace | recisdb-rs/src/tuner/windows/vtable_resolver/IBonDriver2.cpp:4-11 | the driver's pointer, null on a fault |
| BonDriverBridge.CEnumChannelName | recisdb-rs/src/tuner/windows/vtable_resolver/IBonDriver2.cpp:12-19 | the driver's pointer, null on a fault |
| BonDriverBridge.CSetChannel2 | recisdb-rs/src/tuner/windows/vtable_resolver/IBonDriver2.cpp:20-27 | the driver's BOOL, FALSE on a fault |
| BonDriverBridge.FaultingDriverLooksFailed | recisdb-rs/src/tuner/windows/vtable_resolver/IBonDriver1.cpp:5-41 | no shim lets an exception through; a faulting driver reads as a failed one: FALSE, 0, a negative level, null names |
| WindowsBonDriver.Prepend | recisdb-proxy/src/bondriver/windows.rs:94 | a decoded string with one more character in front, a failure kept |
| WindowsBonDriver.DecodeUtf16 | recisdb-proxy/src/bondriver/windows.rs:94 | a decoded string is no longer than its units |
| WindowsBonDriver.EncodeChar | recisdb-proxy/src/bondriver/windows.rs:94 | one or two units, none zero for a character other than NUL |
| WindowsBonDriver.EncodeUtf16 | recisdb-proxy/src/bondriver/windows.rs:94 | at least one unit per character |
| WindowsBonDriver.DecodeEncodeChar | recisdb-proxy/src/bondriver/windows.rs:94 | decoding undoes the encoding of a character |
| WindowsBonDriver.DecodeEncode | recisdb-proxy/src/bondriver/windows.rs:94 | every string survives the UTF-16 round trip |
| WindowsBonDriver.EncodeHasNoZero | recisdb-proxy/src/bondriver/windows.rs:94 | a string without NUL encodes without a zero unit |
| WindowsBonDriver.UnpairedSurrogateRejected | recisdb-proxy/src/bondriver/windows.rs:94 | an unpaired high surrogate makes decoding fail |
| WindowsBonDriver.FirstZero | recisdb-proxy/src/bondriver/windows.rs:87-89 | the terminator's position: a zero, with none before it |
| WindowsBonDriver.FromWidePtr | recisdb-proxy/src/bondriver/windows.rs:82-96 | a name only from a non-null pointer to a non-empty string |
| WindowsBonDriver.FirstZeroAfter | recisdb-proxy/src/bondriver/windows.rs:87-89 | the first zero after units with none is at their end |
| WindowsBonDriver.FromWidePtrRoundTrip | recisdb-proxy/src/bondriver/windows.rs:82-96 | a non-empty name without NUL written as terminated UTF-16 reads back as itself |
| WindowsBonDriver.FromWidePtrNone | recisdb-proxy/src/bondriver/windows.rs:83-92 | a null pointer and an empty string read as no name |
| WindowsBonDriver.NonNull | recisdb-proxy/src/bondriver/windows.rs:308-309 | Some exactly for a non-null probe result, holding the object |
| WindowsBonDriver.Version | recisdb-proxy/src/bondriver/windows.rs:313-318 | 1 without IBonDriver2, 2 with it, 3 with both, 0 for IBonDriver3 alone |
| WindowsBonDriver.ProbedVersion | recisdb-proxy/src/bondriver/windows.rs:303-318 | the version is never 0; it is the driver's generation without a faulting cast, 1 with one |
| WindowsBonDriver.OpenTuner | recisdb-proxy/src/bondriver/windows.rs:138-149 | Ok iff the driver says TRUE, ConnectionRefused otherwise |
| WindowsBonDriver.SetChannel | recisdb-proxy/src/bondriver/windows.rs:157-167 | Ok iff the driver says TRUE, AddrNotAvailable otherwise |
| WindowsBonDriver.SetChannelBySpace | recisdb-proxy/src/bondriver/windows.rs:169-182 | Unsupported without IBonDriver2, else Ok on TRUE and AddrNotAvailable otherwise |
| WindowsBonDriver.GetSignalLevel | recisdb-proxy/src/bondriver/windows.rs:184-186 | the driver's level, -1 on a fault |
| WindowsBonDriver.WaitTsStream | recisdb-proxy/src/bondriver/windows.rs:188-190 | true iff the driver answers non-zero |
| WindowsBonDriver.EnumTuningSpace | recisdb-proxy/src/bondriver/windows.rs:232-238 | None without IBonDriver2 or on a fault, else the driver's name as read |
| WindowsBonDriver.EnumChannelName | recisdb-proxy/src/bondriver/windows.rs:240-246 | None without IBonDriver2 or on a fault, else the driver's name as read |
| WindowsBonDriver.Capacity | recisdb-proxy/src/bondriver/windows.rs:198 | the buffer length saturated at u32::MAX |
| WindowsBonDriver.TsStreamOutcome | recisdb-proxy/src/bondriver/windows.rs:203-221 | WouldBlock iff FALSE or a fault; InvalidData iff a reported size beyond the buffer; else the size and remaining count |
| WindowsBonDriver.Written | recisdb-proxy/src/bondriver/windows.rs:203-208 | the buffer keeps its length |
| WindowsBonDriver.GetTsStream | recisdb-proxy/src/bondriver/windows.rs:193-223 | the result is that outcome, and the buffer holds what the driver copied |
| WindowsBonDriver.TsStreamData | recisdb-proxy/src/bondriver/windows.rs:221 | the bytes handed back are the reported prefix of what the driver wrote |
| WindowsBonDriver.NewTuner | recisdb-proxy/src/bondriver/windows.rs:267-338 | NotFound for a missing path or a DLL that does not load; Other for a null driver; else the probed driver, opened, or ConnectionRefused with the driver released |
| WindowsBonDriver.BonDriverTuner.Opened | recisdb-proxy/src/bondriver/windows.rs:334-337 | the tuner holds the opened driver with the interfaces probing gave (as `NewTuner` returns them), not yet dropped |
| WindowsBonDriver.BonDriverTuner.SetChannelBySpaceOn | recisdb-proxy/src/bondriver/windows.rs:341-344 | set_channel is set_channel_by_space on the driver |
| WindowsBonDriver.BonDriverTuner.VersionOf | recisdb-proxy/src/bondriver/windows.rs:380-382 | the driver's version, never 0, since the interfaces are the probed ones |
| WindowsBonDriver.BonDriverTuner.Drop | recisdb-proxy/src/bondriver/windows.rs:255-262 | close the tuner, then release the driver, keeping the probed interfaces |
| WindowsBonDriver.LifecycleOrder | recisdb-proxy/src/bondriver/windows.rs:127-135 | every lifecycle ends with one release, preceded by a close iff the tuner opened |

## Left out

- Sockets, the async server and client connections, the tuner pool and its locks, background scanning, the web UI, logging and metrics are not part of this model. Each is I/O or concurrency. Where a modelled operation depends on one, what it returns is a parameter: the server's answer in `BonDriverExports`, the decoder's write in `B25Resync`, the driver's calls in `BonDriverBridge`.
- The ring buffer's atomics are not modelled. `RingBuffer.TsRingBuffer` is one sequential object, so interleavings of producer and consumer are not covered.
- The SQL layer is replaced by a sequence of records, `ChannelTable`. The columns it models are the key, the scanned fields, the enabled flag, the failure count and the priority. Timestamps, `signal_level` (an f32) and the other CRUD operations are left out, and so are `get_tuning_spaces` and the channel-name queries, which only read the table.
- The `bon_drivers` table is reduced to the set of its ids, which the foreign key of `channels.bon_driver_id` checks. `ChannelTable.ChannelDatabase.AddDriver` stands for `insert_bon_driver`; the rest of recisdb-proxy/src/database/bon_driver.rs is not part of this model.
- Floating point is not modelled: the signal level is a `real`, copied through unchanged.
- `Crc.Crc32Mpeg2`: only the byte-at-a-time table algorithm of the source is modelled. Its equality to bitwise polynomial division, and the zero residue of a section that ends in its own CRC, are not proved.
- `Descriptors.DecodeAribString`: the source's simplified conversion is modelled (printable ASCII, then UTF-8 when valid, otherwise lossy). The full ARIB STD-B24 character set is foreign code.
- `Descriptors.BcdToU32`: the u32 arithmetic is modelled as wrapping modulo 2^32.
  - A debug build of the source panics instead when an input of more than four bytes exceeds u32.
  - Up to four bytes, the result is the decimal value itself.
- `Analyzer.TsAnalyzer`: the source keeps one `SectionCollector` object per PID. The model keeps each collector's state as a value in a map, with the same transitions as `Psi.SectionCollector`.
- `Analyzer.TsAnalyzer`: the getters `result` and `into_result` (analyzer.rs lines 392-399) are plain field reads and are not modelled.
- Packet counters are unbounded `nat`s. The source's u64 counters cannot wrap within any real stream.
- Hash-map iteration order is unspecified in the source.
  - Outputs that follow it are stated as sets, or in the sorted order the source imposes afterwards.
  - Order matters in `SpaceGeneration.ActualSpacesUsed` and the reverse lookup of `SpaceGeneration.GeneratedFacts`.
- `SpaceGeneration.GenerateFromChannels`: `sort_by_key` is stable in Rust. The model's insertion sort is proved to sort by key and to permute, but its order among regions with equal keys is not claimed.
  - Every name outside the sort order gets key 255.
  - 静岡 is one such name: `region_sort_key` does not list it.
- `MinimalTsParsing.MinimalTsParser.ParsePat` and `MinimalTsParsing.MinimalTsParser.ParseSdt` require a section length of at least 1. With 0, the usize expression `3 + section_length - 4` would underflow.
  - Their caller, `try_parse_section`, only completes sections whose length covers the 8-byte header and the CRC.
  - That this meets the requirement is proved at the call.
- `MinimalTsParsing.MinimalTsParser`: `result()` is a plain field read and is not modelled.
- `B25Resync.B25Pipe.Push`: the decoder's output is foreign code. So the drain loop (b25_pipe.rs:116-164), `drain_all` and `reset_decoder` are reduced to a parameter saying whether the write succeeds.
  - The second resync block (b25_pipe.rs:92-100) is shown unreachable. After the first block, the stash starts with the sync byte.
- `Messages.DecodeListAck`, `Codec.DecodeChannelList`: memory allocation is not modelled. The source reserves room for `count` records with `Vec::with_capacity` (codec.rs line 846) before it reads any of them. A wire count near 2^32 can make that allocation fail, which aborts the process. The model allocates nothing, so such a payload ends in the decoding error of the first missing record.
- `Codec.OptStringRoundTrip`, `Codec.StringRoundTrip`: these hold only for strings whose UTF-8 form is shorter than 65535 and 65536 bytes respectively. The source writes the length as a u16.
  - An optional string of exactly 65535 bytes collides with the None marker, as `Codec.OptStringMarkerClash` shows.
  - Longer strings have their length truncated.
- `BonDriverBridge`: the const and mutable probes are the same function, `InterfaceCheck2` or `InterfaceCheck3`. IBonDriver3's own methods (`SetLnbPower` and the rest) are not modelled.
- `WindowsBonDriver.NewTuner`: the path check and the DLL load are booleans. Canonicalisation and `LoadLibrary` are I/O.
- recisdb-rs/src/tuner/windows/mod.rs is not part of this model.
- The NIT and SDT `is_actual` getters are not modelled. Each only compares the table id.
- `BonDriverExports.CacheStore`: the loop that pads a cache with empty names up to the index is modelled by the function `Pad`.
- `BonDriverExports` leaves out several exported functions, because each returns a stored value or only forwards to the server connection:
  - `GetTunerName`, `IsTunerOpening`, `GetCurSpace`, `GetCurChannel` and the device-number queries;
  - `SetLnbPower`, `OpenTuner`, `CloseTuner`, `PurgeTsStream` and `Release`.
- `BonDriverExports`: the RTTI and vtable construction is not modelled. It is memory layout, not behaviour.
- The hash-map test of `ChannelKey` (channel_key.rs lines 68-76) is not modelled. Equal keys are one value in Dafny, so a lookup under an equal key is found by substitution alone; what the hand-written `Hash` needs is stated by `ChannelKeys.HashAgreesWithEquality`.
- `ClientConfig`: `find_ini_file` is not modelled. It searches the file system.
- `ScanChannelList.GenerateScanChannels`: the transport-stream filter and the terrestrial option of each target are always as-is and none, so they are not modelled.

## Findings

| source | as written | input that shows it | evidently intended | confidence | as-written member | corrected member |
|---|---|---|---|---|---|---|
| recisdb-protocol/src/broadcast_region.rs:52-61 | `0x7FF0 - normalized_nid` is a u16 subtraction. A NID from 0x7BF1 to 0x7BFF is normalized to 0x7FF1..0x7FFF, above 0x7FF0, after the range check has passed. | NID 0x7BF8: normalized 0x7FF8, and the subtraction overflows (a panic in a debug build); `BroadcastRegion.RegionIdOverflowExample` | None, as for every other NID that maps to no region; a release build's wrapping gives it too (`BroadcastRegion.RegionIdAgreement`) | not executed | BroadcastRegion.RegionIdChecked | BroadcastRegion.RegionIdFromNid |
| recisdb-proxy/src/tuner/space_generator.rs:454-494 | The mixed-bands test builds its BS and CS channels with NIDs 0x4011 and 0x6001, and expects BS and CS spaces. `BandType::from_nid` puts both NIDs in the Other band: BS is NID 4, CS is 6 or 7. | the test's channel list: two virtual spaces, terrestrial and Other | three virtual spaces (terrestrial, BS, CS), from BS NID 4 and CS NID 6 | not executed | SpaceGeneration.MixedBandsAsWritten | SpaceGeneration.MixedBandsCorrected |
