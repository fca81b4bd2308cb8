/** The typed frames of h2frame/mod.ts: `DataFrame`, `HeadersFrame` and `SettingsFrame`
    (sections 6.1, 6.2 and 6.5 of RFC 7540). Each is a `Frame` pinned to one type octet
    that also lists the names of the flag bits it understands. */
module TypedFrames {
  import opened Results
  import opened Bytes
  import opened Frames

  /** Which subclass of `Frame` a typed frame is. */
  datatype FrameKind = DataFrame | HeadersFrame | SettingsFrame {

    /** The type octet the subclass constructor insists on. */
    function TypeCode(): uint8 {
      match this
      case DataFrame => 0
      case HeadersFrame => 1
      case SettingsFrame => 4
    }
  }

  /** The flag names the subclasses report in `flagString`. */
  datatype FrameFlag = EndStream | EndHeaders | Padded | Priority | Ack {

    function Name(): string {
      match this
      case EndStream => "END_STREAM"
      case EndHeaders => "END_HEADERS"
      case Padded => "PADDED"
      case Priority => "PRIORITY"
      case Ack => "ACK"
    }

    /** Where the name stands in a `flagString` list: the getters push END_STREAM, END_HEADERS,
        PADDED, PRIORITY in that order (ACK is alone). This only orders the list; the bits that are
        tested are those in `DataFlags`, `HeadersFlags` and `SettingsFlags`. */
    function ListPosition(): nat {
      match this
      case EndStream => 0
      case EndHeaders => 1
      case Padded => 2
      case Priority => 3
      case Ack => 0
    }
  }

  /** JavaScript's `flag & mask` on an octet, as a condition: the masked value is non-zero. */
  function HasBits(flag: uint8, mask: uint8): bool {
    (flag as bv8) & (mask as bv8) != 0
  }

  /** The names come in strictly increasing list position, so none occurs twice. */
  predicate InListOrder(r: seq<FrameFlag>) {
    forall i :: 0 < i < |r| ==> r[i - 1].ListPosition() < r[i].ListPosition()
  }

  /** `DataFrame.GET_FLAG_STRING`: END_STREAM when `flag & 0x1`, then PADDED when `flag & 0x8`. */
  function DataFlags(flag: uint8): (r: seq<FrameFlag>)
    ensures EndStream in r <==> HasBits(flag, 0x1)
    ensures Padded in r <==> HasBits(flag, 0x8)
    ensures forall x :: x in r ==> x == EndStream || x == Padded
    ensures InListOrder(r)
  {
    (if HasBits(flag, 0x1) then [EndStream] else [])
    + (if HasBits(flag, 0x8) then [Padded] else [])
  }

  /** `HeadersFrame.GET_FLAG_STRING`: END_STREAM (0x1), END_HEADERS (0x4), PADDED (0x8), PRIORITY.
      The source tests PRIORITY with the decimal mask 20, which is 0x14, where section 6.2
      of RFC 7540 assigns bit 0x20; the model keeps the source's mask. */
  function HeadersFlags(flag: uint8): (r: seq<FrameFlag>)
    ensures EndStream in r <==> HasBits(flag, 0x1)
    ensures EndHeaders in r <==> HasBits(flag, 0x4)
    ensures Padded in r <==> HasBits(flag, 0x8)
    ensures FrameFlag.Priority in r <==> HasBits(flag, 20)
    ensures forall x :: x in r ==> x != Ack
    ensures InListOrder(r)
  {
    (if HasBits(flag, 0x1) then [EndStream] else [])
    + (if HasBits(flag, 0x4) then [EndHeaders] else [])
    + (if HasBits(flag, 0x8) then [Padded] else [])
    + (if HasBits(flag, 20) then [FrameFlag.Priority] else [])
  }

  /** The source's PRIORITY mask 20 (0x14) consists of the END_HEADERS bit 0x4 and the unassigned
      bit 0x10: the RFC's PRIORITY bit alone is not reported, while END_HEADERS alone is reported
      as PRIORITY too. */
  lemma HeadersPriorityMask(flag: uint8)
    ensures HasBits(flag, 20) <==> HasBits(flag, 0x4) || HasBits(flag, 0x10)
  {
    MaskTwentyBits(flag as bv8);
  }

  /** On octets, the mask 20 meets exactly the octets that meet bit 0x4 or bit 0x10. */
  lemma MaskTwentyBits(b: bv8)
    ensures b & 20 != 0 <==> b & 0x4 != 0 || b & 0x10 != 0
  {
    assert b & 20 == (b & 0x4) | (b & 0x10);
  }

  /** Flag octet 0x20, the PRIORITY bit of RFC 7540, names nothing; END_HEADERS alone also names PRIORITY. */
  lemma HeadersPriorityExamples()
    ensures HeadersFlags(0x20) == []
    ensures HeadersFlags(0x04) == [EndHeaders, FrameFlag.Priority]
  {
    assert !HasBits(0x20, 0x1) && !HasBits(0x20, 0x4) && !HasBits(0x20, 0x8) && !HasBits(0x20, 20);
    assert !HasBits(0x04, 0x1) && HasBits(0x04, 0x4) && !HasBits(0x04, 0x8) && HasBits(0x04, 20);
  }

  /** `SettingsFrame.GET_FLAG_STRING`: ACK when `flag & 0x1`. */
  function SettingsFlags(flag: uint8): (r: seq<FrameFlag>)
    ensures HasBits(flag, 0x1) ==> r == [Ack]
    ensures !HasBits(flag, 0x1) ==> r == []
  {
    if HasBits(flag, 0x1) then [Ack] else []
  }

  /** The flag names a typed frame of kind `kind` reports for `flag`. */
  function FlagString(kind: FrameKind, flag: uint8): seq<FrameFlag> {
    match kind
    case DataFrame => DataFlags(flag)
    case HeadersFrame => HeadersFlags(flag)
    case SettingsFrame => SettingsFlags(flag)
  }

  /** A typed frame: its kind, the underlying frame and the cached flag names. */
  datatype TypedFrame = TypedFrame(kind: FrameKind, frame: Frame, flagString: seq<FrameFlag>)

  /** The frame is valid, carries its kind's type octet, and its flag names match its flag octet. */
  predicate ValidTyped(tf: TypedFrame) {
    && Valid(tf.frame)
    && tf.frame.frameType == tf.kind.TypeCode()
    && tf.flagString == FlagString(tf.kind, tf.frame.flag)
  }

  /** The subclass constructors: the type octet is checked first (a header too short to have one
      fails this check too), then the `Frame` constructor's checks apply. */
  function NewTyped(kind: FrameKind, header: seq<uint8>, payload: Option<seq<uint8>>): (r: Result<TypedFrame, FrameError>)
    ensures (|header| <= 3 || header[3] != kind.TypeCode()) ==> r == Err(InvalidFrameType)
    ensures (|header| > 3 && header[3] == kind.TypeCode() && |header| != HeaderSize) ==>
              r == Err(InvalidFrameHeader)
    ensures (&& |header| == HeaderSize
             && header[3] == kind.TypeCode()
             && FromBigEndian(header[..3]) != |payload.GetOr([])|) ==>
              r == Err(InvalidPayloadLength)
    ensures r.Ok? <==>
              && |header| == HeaderSize
              && header[3] == kind.TypeCode()
              && FromBigEndian(header[..3]) == |payload.GetOr([])|
    ensures r.Ok? ==>
              && ValidTyped(r.value)
              && r.value.kind == kind
              && r.value.frame.header == header
              && r.value.frame.payload == payload.GetOr([])
  {
    if |header| <= 3 || header[3] != kind.TypeCode() then Err(InvalidFrameType)
    else
      match NewFrame(header, payload)
      case Err(e) => Err(e)
      case Ok(f) => Ok(TypedFrame(kind, f, FlagString(kind, f.flag)))
  }

  /** The optional argument of `create`. */
  datatype CreateSetting = CreateSetting(flag: Option<int>, streamIdentifier: Option<nat>, payload: Option<seq<uint8>>)

  /** What `create` accepts: a stream identifier that fits 32 bits and a payload that fits the 24-bit length. */
  predicate CreatableSetting(setting: Option<CreateSetting>) {
    setting.Some? ==>
      && setting.value.streamIdentifier.GetOr(0) < Limit32
      && |setting.value.payload.GetOr([])| < Limit24
  }

  /** The header `create` writes: all zero apart from the type octet without a setting; otherwise the
      payload's length, the type, the flag (default 0) as stored into an octet, and the stream
      identifier (default 0). */
  function CreateHeader(kind: FrameKind, setting: Option<CreateSetting>): (r: seq<uint8>)
    requires CreatableSetting(setting)
    ensures |r| == HeaderSize
  {
    match setting
    case None => [0, 0, 0, kind.TypeCode(), 0, 0, 0, 0, 0]
    case Some(s) =>
      BuildHeader(|s.payload.GetOr([])|, kind.TypeCode(), StoreOctet(s.flag.GetOr(0)), s.streamIdentifier.GetOr(0))
  }

  /** `create`: builds a frame of the right type from an optional setting. The constructor it calls
      never throws here. The flag is written into the header array and read back from it, so only
      its low 8 bits survive. */
  function Create(kind: FrameKind, setting: Option<CreateSetting>): (r: TypedFrame)
    requires CreatableSetting(setting)
    ensures ValidTyped(r) && r.kind == kind
    ensures r.frame.length == |r.frame.payload|
    ensures setting.None? ==>
              && r.frame.payload == []
              && r.frame.flag == 0
              && r.frame.streamIdentifier == 0
              && r.flagString == []
    ensures setting.Some? ==>
              && r.frame.payload == setting.value.payload.GetOr([])
              && r.frame.flag == StoreOctet(setting.value.flag.GetOr(0))
              && r.frame.streamIdentifier == setting.value.streamIdentifier.GetOr(0)
  {
    var header := CreateHeader(kind, setting);
    var payload := match setting case None => None case Some(s) => s.payload;
    CreateParses(kind, setting);
    NewTyped(kind, header, payload).value
  }

  lemma CreateParses(kind: FrameKind, setting: Option<CreateSetting>)
    requires CreatableSetting(setting)
    ensures var payload := match setting case None => None case Some(s) => s.payload;
            var r := NewTyped(kind, CreateHeader(kind, setting), payload);
            && r.Ok?
            && (setting.None? ==> r.value.frame.flag == 0 && r.value.frame.streamIdentifier == 0)
            && (setting.Some? ==>
                  && r.value.frame.flag == StoreOctet(setting.value.flag.GetOr(0))
                  && r.value.frame.streamIdentifier == setting.value.streamIdentifier.GetOr(0))
  {
    match setting
    case None =>
      var h: seq<uint8> := [0, 0, 0, kind.TypeCode(), 0, 0, 0, 0, 0];
      assert h[..3] == [0, 0, 0];
      assert h[5..] == [0, 0, 0, 0];
      FromBigEndian4(h[5..]);
      var z: seq<uint8> := [0, 0, 0];
      assert FromBigEndian(z) == 0 by {
        assert z[..2][..1][..0] == [];
      }
    case Some(s) =>
      ParseBuiltHeader(kind.TypeCode(), StoreOctet(s.flag.GetOr(0)), s.streamIdentifier.GetOr(0), s.payload.GetOr([]));
  }

  /** Flags that differ by a multiple of 256 make `create` build the same frame. */
  lemma CreateFlagModulo(kind: FrameKind, s: CreateSetting, flag: int, k: int)
    requires CreatableSetting(Some(s))
    ensures Create(kind, Some(s.(flag := Some(flag + 256 * k)))) == Create(kind, Some(s.(flag := Some(flag))))
  {
    StoreOctetPeriodic(flag, k);
  }

  /** A DATA frame created with flag 257 has flag octet 1 and names END_STREAM only. */
  lemma CreateFlagExample()
    ensures var r := Create(DataFrame, Some(CreateSetting(Some(257), None, None)));
            && r.frame.flag == 1
            && r.flagString == [EndStream]
  {
    assert StoreOctet(257) == 1;
    assert HasBits(1, 0x1) && !HasBits(1, 0x8);
  }

  /** The subclasses' `updateHeader`: rewrites the flag and stream identifier octets (never the type)
      and recomputes the flag names when a flag is supplied. */
  function UpdateTypedHeader(tf: TypedFrame, flag: Option<uint8>, streamIdentifier: Option<nat>): (r: TypedFrame)
    requires ValidTyped(tf)
    requires streamIdentifier.Some? ==> streamIdentifier.value < Limit32
    ensures ValidTyped(r)
    ensures r.kind == tf.kind
    ensures r.frame.header[..4] == tf.frame.header[..4]
    ensures r.frame.payload == tf.frame.payload
    ensures r.frame.flag == flag.GetOr(tf.frame.flag)
    ensures r.frame.streamIdentifier == streamIdentifier.GetOr(tf.frame.streamIdentifier)
    ensures r.flagString == FlagString(tf.kind, flag.GetOr(tf.frame.flag))
  {
    var f := UpdateHeader(tf.frame, None, flag, streamIdentifier);
    TypedFrame(tf.kind, f, if flag.Some? then FlagString(tf.kind, f.flag) else tf.flagString)
  }
}
