/** The untyped HTTP/2 frame of h2frame/mod.ts (`Frame`): the 9-octet header of section 4.1
    of RFC 7540 with its decoded fields cached beside it, and the payload. */
module Frames {
  import opened Results
  import opened Bytes

  /** The messages the frame layer throws. */
  datatype FrameError =
    | InvalidFrameHeader    // "Invalid Frame Header": the header is not 9 octets
    | InvalidPayloadLength  // "Invalid Payload Length": the length field disagrees with the payload
    | InvalidFrameType      // "Invalid Frame Type": a typed frame built from the wrong type octet
    | InvalidIdentifier     // "invalid identifier": an unknown SETTINGS parameter name

  const HeaderSize: nat := 9

  /** The ten frame types of section 6 of RFC 7540, in type-code order. */
  datatype FrameType =
    | Data | Headers | Priority | RstStream | Settings
    | PushPromise | Ping | GoAway | WindowUpdate | Continuation
  {
    /** The type octet that carries this frame type. */
    function Code(): uint8 {
      match this
      case Data => 0
      case Headers => 1
      case Priority => 2
      case RstStream => 3
      case Settings => 4
      case PushPromise => 5
      case Ping => 6
      case GoAway => 7
      case WindowUpdate => 8
      case Continuation => 9
    }

    /** The upper-case name the source reports as `typeString`. */
    function Name(): string {
      match this
      case Data => "DATA"
      case Headers => "HEADERS"
      case Priority => "PRIORITY"
      case RstStream => "RST_STREAM"
      case Settings => "SETTINGS"
      case PushPromise => "PUSH_PROMISE"
      case Ping => "PING"
      case GoAway => "GOAWAY"
      case WindowUpdate => "WINDOW_UPDATE"
      case Continuation => "CONTINUATION"
    }
  }

  /** The frame type a type octet denotes, if any. */
  function FrameTypeOf(t: int): (r: Option<FrameType>)
    ensures r.Some? <==> 0 <= t < 10
    ensures r.Some? ==> r.value.Code() == t
  {
    match t
    case 0 => Some(Data)
    case 1 => Some(Headers)
    case 2 => Some(Priority)
    case 3 => Some(RstStream)
    case 4 => Some(Settings)
    case 5 => Some(PushPromise)
    case 6 => Some(Ping)
    case 7 => Some(GoAway)
    case 8 => Some(WindowUpdate)
    case 9 => Some(Continuation)
    case _ => None
  }

  /** Every frame type is found again from its own type octet. */
  lemma FrameTypeCodeRoundTrip(ft: FrameType)
    ensures FrameTypeOf(ft.Code()) == Some(ft)
  {
  }

  /** `Frame.GET_TYPE_STRING`: the name of a known type, "UNKNOWN" for every other value. */
  function TypeString(t: int): (r: string)
    ensures r == "UNKNOWN" <==> !(0 <= t < 10)
    ensures forall ft: FrameType :: ft.Code() == t ==> r == ft.Name()
  {
    match FrameTypeOf(t)
    case Some(ft) => ft.Name()
    case None => "UNKNOWN"
  }

  /** Distinct known type octets get distinct names. */
  lemma TypeStringInjective(a: int, b: int)
    requires 0 <= a < 10 && 0 <= b < 10
    requires TypeString(a) == TypeString(b)
    ensures a == b
  {
  }

  /** A frame: the header octets, the fields the constructor decodes from them, and the payload. */
  datatype Frame = Frame(
    header: seq<uint8>,
    length: nat,
    frameType: uint8,
    typeString: string,
    flag: uint8,
    streamIdentifier: nat,
    payload: seq<uint8>)

  /** The fields agree with the header octets and the length field counts the payload.
      The stream identifier is all 32 bits of octets 5..8: the source does not clear the
      reserved bit that section 4.1 of RFC 7540 says to ignore. */
  predicate Valid(f: Frame) {
    && |f.header| == HeaderSize
    && f.length == FromBigEndian(f.header[..3])
    && f.frameType == f.header[3]
    && f.typeString == TypeString(f.frameType)
    && f.flag == f.header[4]
    && f.streamIdentifier == FromBigEndian(f.header[5..])
    && f.length == |f.payload|
  }

  /** The `Frame` constructor: parses the header and checks it against the payload,
      which defaults to empty when omitted. */
  function NewFrame(header: seq<uint8>, payload: Option<seq<uint8>>): (r: Result<Frame, FrameError>)
    ensures |header| != HeaderSize ==> r == Err(InvalidFrameHeader)
    ensures (|header| == HeaderSize && FromBigEndian(header[..3]) != |payload.GetOr([])|) ==>
              r == Err(InvalidPayloadLength)
    ensures |header| == HeaderSize && FromBigEndian(header[..3]) == |payload.GetOr([])| ==> r.Ok?
    ensures r.Ok? ==> Valid(r.value) && r.value.header == header && r.value.payload == payload.GetOr([])
  {
    if |header| != HeaderSize then Err(InvalidFrameHeader)
    else
      var body := payload.GetOr([]);
      var length := FromBigEndian(header[..3]);
      if length != |body| then Err(InvalidPayloadLength)
      else
        Ok(Frame(header, length, header[3], TypeString(header[3]), header[4],
                 FromBigEndian(header[5..]), body))
  }

  /** The header a sender writes for the given fields: 24-bit length, type, flag, 32-bit stream identifier. */
  function BuildHeader(length: nat, frameType: uint8, flag: uint8, streamIdentifier: nat): (r: seq<uint8>)
    requires length < Limit24
    requires streamIdentifier < Limit32
    ensures |r| == HeaderSize
    ensures r[3] == frameType && r[4] == flag
  {
    Be24(length) + [frameType, flag] + Be32(streamIdentifier)
  }

  /** Parsing a built header with a payload of the announced length recovers every field. */
  lemma ParseBuiltHeader(frameType: uint8, flag: uint8, streamIdentifier: nat, payload: seq<uint8>)
    requires |payload| < Limit24
    requires streamIdentifier < Limit32
    ensures var r := NewFrame(BuildHeader(|payload|, frameType, flag, streamIdentifier), Some(payload));
            && r.Ok?
            && r.value.length == |payload|
            && r.value.frameType == frameType
            && r.value.typeString == TypeString(frameType)
            && r.value.flag == flag
            && r.value.streamIdentifier == streamIdentifier
            && r.value.payload == payload
  {
    var h := BuildHeader(|payload|, frameType, flag, streamIdentifier);
    assert h[..3] == Be24(|payload|);
    assert h[5..] == Be32(streamIdentifier);
  }

  /** `updatePayload`: replaces the payload and rewrites the three length octets; returns the new length. */
  function UpdatePayload(f: Frame, payload: seq<uint8>): (r: (Frame, nat))
    requires Valid(f)
    requires |payload| < Limit24
    ensures Valid(r.0)
    ensures r.0.payload == payload
    ensures r.1 == r.0.length == |payload|
    ensures r.0.header[3..] == f.header[3..]
    ensures r.0.frameType == f.frameType && r.0.typeString == f.typeString
    ensures r.0.flag == f.flag && r.0.streamIdentifier == f.streamIdentifier
  {
    var header := Be24(|payload|) + f.header[3..];
    assert header[..3] == Be24(|payload|);
    assert header[3..] == f.header[3..];
    assert header[5..] == f.header[5..];
    (f.(header := header, length := |payload|, payload := payload), |payload|)
  }

  /** `_updateHeader` (and the public `Frame.updateHeader`): writes only the octets of the supplied
      fields. A new type also renames `typeString`; a new stream identifier takes octets 5..8. */
  function UpdateHeader(f: Frame, frameType: Option<uint8>, flag: Option<uint8>, streamIdentifier: Option<nat>): (r: Frame)
    requires Valid(f)
    requires streamIdentifier.Some? ==> streamIdentifier.value < Limit32
    ensures Valid(r)
    ensures r.header[..3] == f.header[..3]
    ensures r.length == f.length && r.payload == f.payload
    ensures r.frameType == frameType.GetOr(f.frameType)
    ensures r.flag == flag.GetOr(f.flag)
    ensures r.streamIdentifier == streamIdentifier.GetOr(f.streamIdentifier)
    ensures streamIdentifier.None? ==> r.header[5..] == f.header[5..]
    ensures streamIdentifier.Some? ==> r.header[5..] == Be32(streamIdentifier.value)
  {
    var f1 := match frameType
      case Some(t) => f.(frameType := t, typeString := TypeString(t), header := f.header[3 := t])
      case None => f;
    assert f1.header[..3] == f.header[..3] && f1.header[5..] == f.header[5..];
    var f2 := match flag
      case Some(fl) => f1.(flag := fl, header := f1.header[4 := fl])
      case None => f1;
    assert f2.header[..3] == f.header[..3] && f2.header[5..] == f.header[5..];
    match streamIdentifier
    case Some(id) =>
      var header := f2.header[..5] + Be32(id);
      assert header[..3] == f.header[..3];
      assert header[5..] == Be32(id);
      f2.(streamIdentifier := id, header := header)
    case None => f2
  }

  /** `byteAll`: the header followed by the payload. */
  function ByteAll(f: Frame): (r: seq<uint8>)
    requires Valid(f)
    ensures |r| == HeaderSize + f.length
    ensures r[..HeaderSize] == f.header && r[HeaderSize..] == f.payload
  {
    f.header + f.payload
  }

  /** Splitting the serialised frame after its header and parsing it gives back the same frame. */
  lemma ByteAllParses(f: Frame)
    requires Valid(f)
    ensures NewFrame(ByteAll(f)[..HeaderSize], Some(ByteAll(f)[HeaderSize..])) == Ok(f)
  {
  }

  /** A parsed frame serialises to exactly the octets it was parsed from. */
  lemma ParsedFrameSerialises(header: seq<uint8>, payload: seq<uint8>)
    requires NewFrame(header, Some(payload)).Ok?
    ensures ByteAll(NewFrame(header, Some(payload)).value) == header + payload
  {
  }

  /** The reserved top bit of octet 5 is kept: for any header the constructor accepts, with or
      without a payload, a set bit yields an identifier of at least 2^31. */
  lemma StreamIdentifierNotMasked(header: seq<uint8>, payload: Option<seq<uint8>>)
    requires |header| == HeaderSize && FromBigEndian(header[..3]) == |payload.GetOr([])|
    requires header[5] >= 0x80
    ensures NewFrame(header, payload).Ok?
    ensures NewFrame(header, payload).value.streamIdentifier >= 0x8000_0000
  {
    FromBigEndian4(header[5..]);
  }
}
