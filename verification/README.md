# deno_h2c frame and HPACK codec, modelled in Dafny

This project models the codec core of deno_h2c, an early HTTP/2 cleartext (h2c) experiment for Deno.
The core has three parts:

- **The frame layer** (`h2frame/mod.ts`). A `Frame` parses the 9-octet frame header of section 4.1 of RFC 7540: a 24-bit big-endian length, a type octet, a flag octet and a 32-bit big-endian stream identifier. It checks the length against the payload. It can replace its payload, rewrite chosen header fields, and serialise itself.
- **The typed frames.** `DataFrame`, `HeadersFrame` and `SettingsFrame` pin the type octet to 0, 1 and 4. They list the names of their flag bits and build frames with `create`. `SettingsFrame` also appends and reads 6-octet SETTINGS parameter entries (section 6.5.1 of RFC 7540). Reading skips entries with unknown codes and a trailing fragment without a known code. It fails on a trailing fragment of 2 to 5 octets whose code is known, because the value octets are missing.
- **The HPACK stub** (`HPACK/mod.ts`). It holds the 61-entry static table of RFC 7541 (Appendix A) as the source transcribes it, a dynamic table that starts empty, and a raw string-literal encoder/decoder with a one-octet length prefix.

Frames are immutable values. Each mutating method of the source becomes a function that returns the updated frame. Octets are `uint8` (an `int` subset type). `Frame` keeps the fields the source caches next to the header octets. The predicate `Valid` ties those fields to the octets. Every operation is proved to establish or preserve it.

Files and modules:

- `bytes.dfy`: `Results` (option and result types) and `Bytes` (octets, big-endian encoding and decoding with round-trip lemmas).
- `frame.dfy`: `Frames` (frame types and their names, the `Frame` record, the constructor, `updatePayload`, `updateHeader`, `byteAll`).
- `typed_frames.dfy`: `TypedFrames` (the three subclasses, flag names, the type-checking constructors, `create`, the subclasses' `updateHeader`).
- `settings.dfy`: `SettingsParameters` (`setParameter`, `readParaeter`, and reading back in insertion order).
- `hpack.dfy`: `Hpack` (static table, dynamic table, `encodeString`, `decodeString`).
- `scenarios.dfy`: `Scenarios` (concrete frames taken from the repository's tests).

The model follows the code wherever the code departs from the RFCs:

- The stream identifier is all 32 bits of octets 5..8. The reserved bit is not masked off.
- HEADERS reports PRIORITY when `flag & 20` is non-zero. The decimal 20 is 0x14, so this means bits 0x4 and 0x10, not the 0x20 of section 6.2 of RFC 7540.
- Static-table entry 13 is named `":stauts"`.
- `decodeString` yields no value when the H bit is set. No Huffman decoding exists.

## Model

| member | source | states |
|---|---|---|
| `Bytes.FromBigEndian` | h2frame/mod.ts:47-51 | n octets read most significant first denote a value below 256^n |
| `Bytes.ToBigEndian` | h2frame/mod.ts:76-82 | spelling n in `width` octets (n below 256^width) yields exactly `width` octets that read back as n |
| `Bytes.BigEndianRoundTrip` | h2frame/mod.ts:55-59 | re-spelling the value of any octet run in its own width gives back the same octets, so header octets are determined by the decoded fields |
| `Bytes.Be24` | h2frame/mod.ts:76-82 | the length field is three octets that read back as the length |
| `Bytes.Be32` | h2frame/mod.ts:108-113 | the stream-identifier field is four octets that read back as the identifier |
| `Bytes.StoreOctet` | h2frame/mod.ts:200 | a number stored into a `Uint8Array` element becomes the octet congruent to it modulo 256, and an octet is stored unchanged |
| `Frames.FrameTypeOf` | h2frame/mod.ts:17-42 | exactly the type octets 0..9 denote a frame type, and the type found carries that octet as its code |
| `Frames.FrameTypeCodeRoundTrip` | h2frame/mod.ts:17-42 | every frame type is recovered from its own type octet |
| `Frames.TypeString` | h2frame/mod.ts:17-42 | the name is "UNKNOWN" exactly when the type is outside 0..9; otherwise it is the name of the frame type with that code |
| `Frames.TypeStringInjective` | h2frame/mod.ts:17-42 | distinct known type octets have distinct names |
| `Frames.NewFrame` | h2frame/mod.ts:44-66 | a header that is not 9 octets fails with InvalidFrameHeader; a length field that differs from the payload size (empty when omitted) fails with InvalidPayloadLength; otherwise the frame is valid, keeps the header and payload, and its fields are the decoded header fields |
| `Frames.BuildHeader` | h2frame/mod.ts:191-208 | the header written for given fields is 9 octets with the type and flag at octets 3 and 4 |
| `Frames.ParseBuiltHeader` | h2frame/mod.ts:188-210 | parsing a built header with a payload of the announced length succeeds and returns each supplied field |
| `Frames.StreamIdentifierNotMasked` | h2frame/mod.ts:44-66 | every header the constructor accepts (9 octets, length field equal to the payload size, with or without a payload) whose reserved bit is set yields a stream identifier of at least 2^31 |
| `Frames.UpdatePayload` | h2frame/mod.ts:73-84 | the frame stays valid, holds the new payload, its length field and returned value are the new payload size, and header octets 3..8 with type, flag and stream identifier are unchanged |
| `Frames.UpdateHeader` | h2frame/mod.ts:92-116 | the frame stays valid; each supplied field takes its new value (type with its name, flag, stream identifier as four big-endian octets); omitted fields, the length octets and the payload are unchanged |
| `Frames.ByteAll` | h2frame/mod.ts:151-153 | the serialisation is 9 + length octets: the header, then the payload |
| `Frames.ByteAllParses` | h2frame/mod.ts:151-153 | parsing a valid frame's serialisation, split after the header, gives back the same frame |
| `Frames.ParsedFrameSerialises` | h2frame/mod.ts:44-66 | a frame parsed from a header and payload serialises back to exactly those octets |
| `TypedFrames.DataFlags` | h2frame/mod.ts:165-170 | END_STREAM is listed iff `flag & 0x1`, PADDED iff `flag & 0x8`, nothing else, END_STREAM first |
| `TypedFrames.HeadersFlags` | h2frame/mod.ts:243-250 | END_STREAM, END_HEADERS and PADDED are listed iff bits 0x1, 0x4, 0x8 are set; PRIORITY iff `flag & 20`; never ACK; in the push order END_STREAM, END_HEADERS, PADDED, PRIORITY |
| `TypedFrames.HeadersPriorityMask` | h2frame/mod.ts:248 | the PRIORITY test with mask 20 passes exactly when bit 0x4 (END_HEADERS) or the unassigned bit 0x10 is set, so by `HeadersFlags` PRIORITY is listed exactly then |
| `TypedFrames.HeadersPriorityExamples` | h2frame/mod.ts:243-250 | flag octet 0x20, the PRIORITY bit of RFC 7540, lists nothing; flag octet 0x04 lists END_HEADERS and PRIORITY |
| `TypedFrames.SettingsFlags` | h2frame/mod.ts:323-327 | ACK is listed iff `flag & 0x1`, and nothing else is |
| `TypedFrames.NewTyped` | h2frame/mod.ts:172-176 | a header without the kind's type octet (including one shorter than 4 octets) fails with InvalidFrameType before any other check; a matching header of the wrong size fails with InvalidFrameHeader; a matching 9-octet header whose length field differs from the payload size fails with InvalidPayloadLength; otherwise it succeeds with a valid typed frame of that kind, keeping the header and payload, with the flag names of its flag octet |
| `TypedFrames.Create` | h2frame/mod.ts:183-211 | never fails; without a setting it yields an empty frame of the kind's type with flag and stream identifier 0 and no flag names; with one it carries the given payload, the flag (default 0) as the header array stores it, i.e. modulo 256, and the stream identifier (default 0) |
| `TypedFrames.CreateParses` | h2frame/mod.ts:188-210 | the subclass constructor accepts the header `create` builds; the parsed stream identifier is the requested one and the parsed flag is the requested one modulo 256 |
| `TypedFrames.CreateFlagModulo` | h2frame/mod.ts:200 | flags that differ by a multiple of 256 make `create` build the same frame, since only the low 8 bits reach the header |
| `TypedFrames.CreateFlagExample` | h2frame/mod.ts:183-211 | `DataFrame.create` with flag 257 yields flag octet 1 and the flag names [END_STREAM] |
| `TypedFrames.UpdateTypedHeader` | h2frame/mod.ts:218-227 | the typed frame stays valid and keeps its kind, length and type octets and payload; flag and stream identifier take the supplied values; the flag names match the resulting flag |
| `SettingsParameters.IdFromCode` | h2frame/mod.ts:453-474 | exactly the codes 1..6 name a parameter, and the parameter found carries that code |
| `SettingsParameters.IdFromName` | h2frame/mod.ts:412-433 | a name that is recognised denotes the parameter of that name |
| `SettingsParameters.IdRoundTrips` | h2frame/mod.ts:412-474 | every parameter is recovered from its code and from its name |
| `SettingsParameters.EncodeEntry` | h2frame/mod.ts:411-440 | an entry is 6 octets: 0, the parameter's code, then 4 octets that read back as the value |
| `SettingsParameters.DecodeEntry` | h2frame/mod.ts:451-480 | a segment yields a parameter exactly when octet 1 is in 1..6, with that code and a value below 2^32 |
| `SettingsParameters.DecodeThenEncode` | h2frame/mod.ts:453-480 | re-encoding a decoded entry gives the entry back with octet 0 cleared: the value is the big-endian reading of octets 2..5 and octet 0 is never consulted |
| `SettingsParameters.EntryRoundTrip` | h2frame/mod.ts:411-480 | decoding an encoded entry returns the same parameter and value |
| `SettingsParameters.ReadParameters` | h2frame/mod.ts:450-481 | on a payload of whole 6-octet entries: at most one parameter per entry, every value below 2^32 |
| `SettingsParameters.ReadParametersAppend` | h2frame/mod.ts:450-481 | reading two whole-entry payloads joined gives the two readings joined |
| `SettingsParameters.UnknownEntrySkipped` | h2frame/mod.ts:472-473 | an entry with an unknown code contributes nothing, whatever its other octets |
| `SettingsParameters.ReadEncodedParameters` | h2frame/mod.ts:401-483 | reading the entries of a parameter list gives back that list, in order |
| `SettingsParameters.ReadSegment` | h2frame/mod.ts:451-480 | a segment fails exactly when it has 2 to 5 octets and a known code in octet 1; a segment of 1 octet or with an unknown code yields nothing; a whole entry yields what `DecodeEntry` reads |
| `SettingsParameters.ReadSettings` | h2frame/mod.ts:448-483 | `readParaeter` on any payload fails only when a trailing fragment of 2 to 5 octets remains, and every value it reports is below 2^32 |
| `SettingsParameters.ReadSettingsWhole` | h2frame/mod.ts:448-483 | on a payload of whole entries `readParaeter` never fails and yields the known entries in payload order |
| `SettingsParameters.ReadSettingsFragment` | h2frame/mod.ts:450-479 | after whole entries, a trailing fragment of fewer than 6 octets makes the reading fail exactly when it has an octet 1 holding a known code; otherwise it is skipped |
| `SettingsParameters.ReadSettingsLoop` | h2frame/mod.ts:448-483 | the stride-6 loop, including the shorter last segment, gives the same outcome as `ReadSettings` on every payload |
| `SettingsParameters.SetParameter` | h2frame/mod.ts:401-442 | an unknown name fails with InvalidIdentifier and nothing else fails; otherwise the payload gains exactly the parameter's entry at its end, the returned value and length are the old size plus 6, and the type, flag and stream-identifier octets and flag names are unchanged |
| `SettingsParameters.SetThenRead` | h2frame/mod.ts:441-483 | after a successful `setParameter`, reading gives the earlier parameters followed by the new one |
| `SettingsParameters.ReadAfterAppend` | h2frame/mod.ts:441-481 | appending one entry to a payload of whole entries keeps it whole and adds exactly that parameter at the end of the reading |
| `SettingsParameters.SetParameters` | h2frame/mod.ts:441 | a series of `setParameter` calls keeps the frame a valid SETTINGS frame and appends the entries in call order |
| `SettingsParameters.ReadBackInInsertionOrder` | test.ts:271-285 | parameters set one by one on a fresh SETTINGS frame are read back, without failure, as exactly those parameters in insertion order |
| `Hpack.StaticLookup` | HPACK/mod.ts:2-64 | a 1-based index finds an entry exactly when it is in 1..61 |
| `Hpack.StaticTableEntries` | HPACK/mod.ts:2-64 | index 1 is `:authority`, index 2 is (`:method`, `GET`), index 8 is (`:status`, `200`), index 13 is the misspelt (`:stauts`, `404`), index 61 is `www-authenticate`, and 0 and 62 find nothing |
| `Hpack.NewContext` | HPACK/mod.ts:65 | a new instance has an empty dynamic table |
| `Hpack.EncodeString` | HPACK/mod.ts:66-71 | the literal is one octet longer than the string: the length modulo 256, then the string's octets |
| `Hpack.DecodeString` | HPACK/mod.ts:72-79 | empty input fails; a first octet with the H bit set fails with no value; otherwise the result is every octet after the first |
| `Hpack.StringRoundTrip` | HPACK/mod.ts:66-79 | on octet strings (the UTF-8 encoding of the text), decoding an encoded string gives it back exactly when its length modulo 256 is below 128; otherwise the H bit makes decoding fail |
| `Hpack.DecodeIgnoresLength` | HPACK/mod.ts:72-76 | the value of the length octet does not affect the decoded octets |
| `Scenarios.ConstructorErrors` | test.ts:107-115 | a 10-octet header and a header announcing one octet without payload are rejected with the source's errors |
| `Scenarios.DataFlagNames` | test.ts:117-137 | DATA flag octets 0, 1, 8 and 9 list nothing, END_STREAM, PADDED, and END_STREAM then PADDED |
| `Scenarios.UpdateAllHeaderFields` | test.ts:88-105 | rewriting type, flag and stream identifier 1 of an all-zero frame names it HEADERS and sets octets 3, 4 and 8 to 1 |
| `Scenarios.HeaderTableSizeParameter` | test.ts:256-263 | HEADER_TABLE_SIZE 4096 on an empty SETTINGS frame gives payload [0, 1, 0, 0, 16, 0] and returns 6; the empty frame reads as no parameters and the result reads as that one parameter |
| `Scenarios.EnablePushParameter` | test.ts:264-283 | setting ENABLE_PUSH to 0 on the frame holding the HEADER_TABLE_SIZE entry returns 12, puts code 2 at octet 7 and value 0 at octet 11, and the payload reads as both parameters in the order set |

## Left out

- The binary-string arithmetic (`toString(2)`, `padStart`, `match(/.{8}/g)`, `parseInt`) is modelled as big-endian arithmetic. Callers must therefore keep the values the source writes within range: a payload below 2^24 octets, stream identifiers and SETTINGS values below 2^32. Out of range, the string slicing yields octets the model does not describe.
- `Frames.UpdateHeader`, `TypedFrames.UpdateTypedHeader`: types and flags are taken as octets. The source stores an out-of-range number in its cached field but only its low 8 bits in the header. The model does not describe that mismatch.
- `TypedFrames.Create`: the flag is an integer, stored modulo 256 as the header array does; fractional and non-finite JavaScript numbers are not modelled.
- `Frames.UpdateHeader` and `TypedFrames.UpdateTypedHeader`: the constant `true` they return is not modelled.
- The aliasing between a frame and the caller's header array, and `create` writing the default stream identifier back into its argument, are not modelled. Frames are values.
- The source's getters (`header`, `payload`, `length`, `flag`, `type`, `typeString`, `streamIdentifier`, `flagString`) are the fields of the records.
- `Hpack.StringRoundTrip`, `Hpack.EncodeString`, `Hpack.DecodeString`: the UTF-8 conversion in `encodeString` and `decodeString` is not modelled. Strings are modelled as their octets. The source's `TextDecoder` also strips a leading byte-order mark and replaces ill-formed octets with U+FFFD. So on text, `decodeString([3, 0xEF, 0xBB, 0xBF])` yields the empty string, and a string that starts with U+FEFF does not survive the round trip even below 128 octets. The round trip is proved for octets, not for all JavaScript strings.
- HPACK parts that do not exist in the source are not modelled: the integer codec, Huffman coding, dynamic-table insertion, sizing and eviction, and header-field representations.
- h2c_v0.0.1.ts (socket loop with fixed preface and frame bytes) and HPACK/test.ts (a demo HTTP server) are transport I/O, not codec logic.
