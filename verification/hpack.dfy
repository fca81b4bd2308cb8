/** The HPACK stub of HPACK/mod.ts: the static table of RFC 7541 (Appendix A) as the source
    transcribes it, a dynamic table that is only ever created empty, and raw string literals
    with a one-octet length prefix (roughly section 5.2 of RFC 7541 with H = 0).
    Strings are handled as their UTF-8 octets; the text conversion itself is not modelled. */
module Hpack {
  import opened Results
  import opened Bytes

  /** One table entry: a single name/value pair. */
  datatype HeaderField = HeaderField(name: string, value: string)

  /** `Hpack.STATIC_TABLE`, read with HPACK's 1-based index: the source's 61 entries in the
      source's order, and nothing outside 1..61. Entry 13 keeps the source's spelling ":stauts"
      where RFC 7541 has ":status". */
  function StaticLookup(index: int): (r: Option<HeaderField>)
    ensures r.Some? <==> 1 <= index <= StaticTableSize
  {
    match index
    case 1 => Some(HeaderField(":authority", ""))
    case 2 => Some(HeaderField(":method", "GET"))
    case 3 => Some(HeaderField(":method", "POST"))
    case 4 => Some(HeaderField(":path", "/"))
    case 5 => Some(HeaderField(":path", "/index.html"))
    case 6 => Some(HeaderField(":scheme", "http"))
    case 7 => Some(HeaderField(":scheme", "https"))
    case 8 => Some(HeaderField(":status", "200"))
    case 9 => Some(HeaderField(":status", "204"))
    case 10 => Some(HeaderField(":status", "206"))
    case 11 => Some(HeaderField(":status", "304"))
    case 12 => Some(HeaderField(":status", "400"))
    case 13 => Some(HeaderField(":stauts", "404"))
    case 14 => Some(HeaderField(":status", "500"))
    case 15 => Some(HeaderField("accept-charset", ""))
    case 16 => Some(HeaderField("accept-encoding", "gzip, deflate"))
    case 17 => Some(HeaderField("accept-language", ""))
    case 18 => Some(HeaderField("accept-ranges", ""))
    case 19 => Some(HeaderField("accept", ""))
    case 20 => Some(HeaderField("access-control-allow-origin", ""))
    case 21 => Some(HeaderField("age", ""))
    case 22 => Some(HeaderField("allow", ""))
    case 23 => Some(HeaderField("authorization", ""))
    case 24 => Some(HeaderField("cache-control", ""))
    case 25 => Some(HeaderField("content-disposition", ""))
    case 26 => Some(HeaderField("content-encoding", ""))
    case 27 => Some(HeaderField("content-language", ""))
    case 28 => Some(HeaderField("content-length", ""))
    case 29 => Some(HeaderField("content-location", ""))
    case 30 => Some(HeaderField("content-range", ""))
    case 31 => Some(HeaderField("content-type", ""))
    case 32 => Some(HeaderField("cookie", ""))
    case 33 => Some(HeaderField("date", ""))
    case 34 => Some(HeaderField("etag", ""))
    case 35 => Some(HeaderField("expect", ""))
    case 36 => Some(HeaderField("expires", ""))
    case 37 => Some(HeaderField("from", ""))
    case 38 => Some(HeaderField("host", ""))
    case 39 => Some(HeaderField("if-match", ""))
    case 40 => Some(HeaderField("if-modified-since", ""))
    case 41 => Some(HeaderField("if-none-match", ""))
    case 42 => Some(HeaderField("if-range", ""))
    case 43 => Some(HeaderField("if-unmodified-since", ""))
    case 44 => Some(HeaderField("last-modified", ""))
    case 45 => Some(HeaderField("link", ""))
    case 46 => Some(HeaderField("location", ""))
    case 47 => Some(HeaderField("max-forwards", ""))
    case 48 => Some(HeaderField("proxy-authenticate", ""))
    case 49 => Some(HeaderField("proxy-authorization", ""))
    case 50 => Some(HeaderField("range", ""))
    case 51 => Some(HeaderField("referer", ""))
    case 52 => Some(HeaderField("refresh", ""))
    case 53 => Some(HeaderField("retry-after", ""))
    case 54 => Some(HeaderField("server", ""))
    case 55 => Some(HeaderField("set-cookie", ""))
    case 56 => Some(HeaderField("strict-transport-security", ""))
    case 57 => Some(HeaderField("transfer-encoding", ""))
    case 58 => Some(HeaderField("user-agent", ""))
    case 59 => Some(HeaderField("vary", ""))
    case 60 => Some(HeaderField("via", ""))
    case 61 => Some(HeaderField("www-authenticate", ""))
    case _ => None
  }

  const StaticTableSize: nat := 61

  /** The table entries RFC 7541 fixes for the indices the source's callers rely on, and the
      one entry whose name the source misspells. */
  lemma StaticTableEntries()
    ensures StaticLookup(1) == Some(HeaderField(":authority", ""))
    ensures StaticLookup(2) == Some(HeaderField(":method", "GET"))
    ensures StaticLookup(8) == Some(HeaderField(":status", "200"))
    ensures StaticLookup(13) == Some(HeaderField(":stauts", "404"))
    ensures StaticLookup(61) == Some(HeaderField("www-authenticate", ""))
    ensures StaticLookup(0).None? && StaticLookup(62).None?
  {
  }

  /** An `Hpack` instance: its dynamic table. */
  datatype Context = Context(dynamicTable: seq<HeaderField>)

  /** `new Hpack()`: every instance starts with its own empty dynamic table. */
  function NewContext(): (r: Context)
    ensures |r.dynamicTable| == 0
  {
    Context([])
  }

  /** The failures of `decodeString`. */
  datatype StringError =
    | MissingLengthOctet  // reading bit 7 of an absent first octet throws
    | HuffmanNotDecoded   // the H bit is set: the source returns no value

  /** `encodeString`: the octet count, then the octets. The count is stored into a `Uint8Array`,
      which keeps it modulo 256. */
  function EncodeString(s: seq<uint8>): (r: seq<uint8>)
    ensures |r| == 1 + |s|
    ensures r[0] == |s| % 256
    ensures r[1..] == s
  {
    [|s| % 256] + s
  }

  /** `decodeString`: with the top bit of the first octet clear, everything after that octet,
      whatever the length octet says; with it set, no value. */
  function DecodeString(b: seq<uint8>): (r: Result<seq<uint8>, StringError>)
    ensures |b| == 0 ==> r == Err(MissingLengthOctet)
    ensures |b| > 0 && b[0] >= 0x80 ==> r == Err(HuffmanNotDecoded)
    ensures r.Ok? <==> |b| > 0 && b[0] < 0x80
    ensures r.Ok? ==> r.value == b[1..]
  {
    if |b| == 0 then Err(MissingLengthOctet)
    else if b[0] >= 0x80 then Err(HuffmanNotDecoded)
    else Ok(b[1..])
  }

  /** A string comes back from its encoding exactly when its length modulo 256 leaves the
      H bit clear; in particular every string shorter than 128 octets does. */
  lemma StringRoundTrip(s: seq<uint8>)
    ensures DecodeString(EncodeString(s)) == Ok(s) <==> |s| % 256 < 0x80
    ensures |s| % 256 >= 0x80 ==> DecodeString(EncodeString(s)) == Err(HuffmanNotDecoded)
  {
  }

  /** The length octet is not consulted: a literal decodes to the same octets whatever count it carries. */
  lemma DecodeIgnoresLength(n: uint8, m: uint8, body: seq<uint8>)
    requires n < 0x80 && m < 0x80
    ensures DecodeString([n] + body) == DecodeString([m] + body)
  {
    assert ([n] + body)[1..] == body;
    assert ([m] + body)[1..] == body;
  }
}
