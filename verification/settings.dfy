/** The SETTINGS parameters of h2frame/mod.ts (`SettingsFrame.setParameter` and `readParaeter`):
    6-octet entries of a 16-bit identifier and a 32-bit big-endian value, as in section 6.5.1
    of RFC 7540. */
module SettingsParameters {
  import opened Results
  import opened Bytes
  import opened Frames
  import opened TypedFrames

  /** The six parameters the source knows, identifiers 1 to 6 (section 6.5.2 of RFC 7540). */
  datatype SettingsId =
    | HeaderTableSize | EnablePush | MaxConcurrentStreams
    | InitialWindowSize | MaxFrameSize | MaxHeaderListSize
  {
    /** The identifier written in an entry's second octet. */
    function Code(): uint8 {
      match this
      case HeaderTableSize => 1
      case EnablePush => 2
      case MaxConcurrentStreams => 3
      case InitialWindowSize => 4
      case MaxFrameSize => 5
      case MaxHeaderListSize => 6
    }

    /** The name callers pass to `setParameter` and `readParaeter` reports. */
    function Name(): string {
      match this
      case HeaderTableSize => "SETTINGS_HEADER_TABLE_SIZE"
      case EnablePush => "SETTINGS_ENABLE_PUSH"
      case MaxConcurrentStreams => "SETTINGS_MAX_CONCURRENT_STREAMS"
      case InitialWindowSize => "SETTINGS_INITIAL_WINDOW_SIZE"
      case MaxFrameSize => "SETTINGS_MAX_FRAME_SIZE"
      case MaxHeaderListSize => "SETTINGS_MAX_HEADER_LIST_SIZE"
    }
  }

  /** The parameter whose identifier octet is `c`, if known (the switch of `readParaeter`). */
  function IdFromCode(c: int): (r: Option<SettingsId>)
    ensures r.Some? <==> 1 <= c <= 6
    ensures r.Some? ==> r.value.Code() == c
  {
    match c
    case 1 => Some(HeaderTableSize)
    case 2 => Some(EnablePush)
    case 3 => Some(MaxConcurrentStreams)
    case 4 => Some(InitialWindowSize)
    case 5 => Some(MaxFrameSize)
    case 6 => Some(MaxHeaderListSize)
    case _ => None
  }

  /** The parameter a name denotes, if any (the switch of `setParameter`). */
  function IdFromName(name: string): (r: Option<SettingsId>)
    ensures r.Some? ==> r.value.Name() == name
  {
    if name == "SETTINGS_HEADER_TABLE_SIZE" then Some(HeaderTableSize)
    else if name == "SETTINGS_ENABLE_PUSH" then Some(EnablePush)
    else if name == "SETTINGS_MAX_CONCURRENT_STREAMS" then Some(MaxConcurrentStreams)
    else if name == "SETTINGS_INITIAL_WINDOW_SIZE" then Some(InitialWindowSize)
    else if name == "SETTINGS_MAX_FRAME_SIZE" then Some(MaxFrameSize)
    else if name == "SETTINGS_MAX_HEADER_LIST_SIZE" then Some(MaxHeaderListSize)
    else None
  }

  /** Each parameter is found again from its code and from its name, so both are unique. */
  lemma IdRoundTrips(id: SettingsId)
    ensures IdFromCode(id.Code()) == Some(id)
    ensures IdFromName(id.Name()) == Some(id)
  {
  }

  /** One (identifier, value) pair, as one element of `readParaeter`'s result. */
  datatype Parameter = Parameter(id: SettingsId, value: nat)

  const EntrySize: nat := 6

  /** The entry `setParameter` appends: a zero octet, the identifier code, the 32-bit value. */
  function EncodeEntry(p: Parameter): (r: seq<uint8>)
    requires p.value < Limit32
    ensures |r| == EntrySize
    ensures r[0] == 0 && IdFromCode(r[1]) == Some(p.id)
    ensures FromBigEndian(r[2..]) == p.value
  {
    var r := [0, p.id.Code()] + Be32(p.value);
    assert r[2..] == Be32(p.value);
    r
  }

  /** One 6-octet segment as `readParaeter` reads it: keyed on octet 1 alone, unknown codes skipped. */
  function DecodeEntry(segment: seq<uint8>): (r: Option<Parameter>)
    requires |segment| == EntrySize
    ensures r.Some? <==> 1 <= segment[1] <= 6
    ensures r.Some? ==> r.value.id.Code() == segment[1] && r.value.value < Limit32
  {
    Pow256Limits();
    match IdFromCode(segment[1])
    case Some(id) => Some(Parameter(id, FromBigEndian(segment[2..])))
    case None => None
  }

  /** Decoding an encoded entry gives back the parameter. */
  lemma EntryRoundTrip(p: Parameter)
    requires p.value < Limit32
    ensures DecodeEntry(EncodeEntry(p)) == Some(p)
  {
  }

  /** Encoding what was decoded from an entry gives back the entry with octet 0 cleared: the value
      is the big-endian reading of octets 2..5, and octet 0 is never consulted. */
  lemma DecodeThenEncode(segment: seq<uint8>)
    requires |segment| == EntrySize
    ensures DecodeEntry(segment).Some? ==> EncodeEntry(DecodeEntry(segment).value) == [0] + segment[1..]
  {
    if DecodeEntry(segment).Some? {
      var e := EncodeEntry(DecodeEntry(segment).value);
      BigEndianInjective(e[2..], segment[2..]);
      assert e == e[..2] + e[2..];
      assert [0] + segment[1..] == [0, segment[1]] + segment[2..];
    }
  }

  /** What one segment contributes to `readParaeter`'s result: its parameter, or nothing. */
  function SegmentParameters(segment: seq<uint8>): (r: seq<Parameter>)
    requires |segment| == EntrySize
    ensures |r| <= 1
  {
    match DecodeEntry(segment)
    case Some(p) => [p]
    case None => []
  }

  /** `readParaeter`: every known entry of the payload, in payload order. */
  function ReadParameters(payload: seq<uint8>): (r: seq<Parameter>)
    requires |payload| % EntrySize == 0
    ensures |r| <= |payload| / EntrySize
    ensures forall i :: 0 <= i < |r| ==> r[i].value < Limit32
  {
    if |payload| == 0 then []
    else SegmentParameters(payload[..EntrySize]) + ReadParameters(payload[EntrySize..])
  }

  /** Reading one more segment at the end adds that segment's contribution: the step of the loop. */
  lemma ReadParametersSnoc(payload: seq<uint8>, i: nat)
    requires i % EntrySize == 0 && i + EntrySize <= |payload|
    ensures ReadParameters(payload[..i + EntrySize])
            == ReadParameters(payload[..i]) + SegmentParameters(payload[i..i + EntrySize])
  {
    var segment := payload[i..i + EntrySize];
    ReadParametersAppend(payload[..i], segment);
    assert payload[..i + EntrySize] == payload[..i] + segment;
    assert segment[..EntrySize] == segment && segment[EntrySize..] == [];
  }

  /** Reading a concatenation reads each part in turn. */
  lemma {:induction false} ReadParametersAppend(a: seq<uint8>, b: seq<uint8>)
    requires |a| % EntrySize == 0 && |b| % EntrySize == 0
    ensures ReadParameters(a + b) == ReadParameters(a) + ReadParameters(b)
  {
    if |a| > 0 {
      assert (a + b)[..EntrySize] == a[..EntrySize];
      assert (a + b)[EntrySize..] == a[EntrySize..] + b;
      ReadParametersAppend(a[EntrySize..], b);
    } else {
      assert a + b == b;
    }
  }

  /** An entry with an unknown code contributes nothing, whatever its other octets. */
  lemma UnknownEntrySkipped(segment: seq<uint8>, rest: seq<uint8>)
    requires |segment| == EntrySize && |rest| % EntrySize == 0
    requires !(1 <= segment[1] <= 6)
    ensures ReadParameters(segment + rest) == ReadParameters(rest)
  {
    assert (segment + rest)[..EntrySize] == segment;
    assert (segment + rest)[EntrySize..] == rest;
  }

  /** The entries of a parameter list, in order. */
  function EncodeParameters(ps: seq<Parameter>): (r: seq<uint8>)
    requires forall i :: 0 <= i < |ps| ==> ps[i].value < Limit32
    ensures |r| == EntrySize * |ps| && |r| % EntrySize == 0
  {
    if |ps| == 0 then [] else EncodeParameters(ps[..|ps| - 1]) + EncodeEntry(ps[|ps| - 1])
  }

  /** Reading back encoded entries returns exactly the parameters, in order. */
  lemma {:induction false} ReadEncodedParameters(ps: seq<Parameter>)
    requires forall i :: 0 <= i < |ps| ==> ps[i].value < Limit32
    ensures ReadParameters(EncodeParameters(ps)) == ps
  {
    if |ps| > 0 {
      var init := ps[..|ps| - 1];
      var e := EncodeEntry(ps[|ps| - 1]);
      ReadEncodedParameters(init);
      ReadParametersAppend(EncodeParameters(init), e);
      assert e[..EntrySize] == e && e[EntrySize..] == [];
      EntryRoundTrip(ps[|ps| - 1]);
      assert ps == init + [ps[|ps| - 1]];
    }
  }

  /** The one failure of `readParaeter`: a last segment shorter than an entry whose identifier is
      known makes the value loop convert octets that are absent, which throws. */
  datatype ReadError = TruncatedValue

  /** One segment of at most 6 octets as `readParaeter` reads it. Without an octet 1, or with an
      unknown code there, the segment is skipped; a known code needs all four value octets. */
  function ReadSegment(segment: seq<uint8>): (r: Result<seq<Parameter>, ReadError>)
    requires 0 < |segment| <= EntrySize
    ensures r.Err? <==> 2 <= |segment| < EntrySize && 1 <= segment[1] <= 6
    ensures |segment| < EntrySize && r.Ok? ==> r.value == []
    ensures |segment| == EntrySize ==> r == Ok(SegmentParameters(segment))
  {
    if |segment| < 2 then Ok([])
    else
      match IdFromCode(segment[1])
      case None => Ok([])
      case Some(id) =>
        if |segment| < EntrySize then Err(TruncatedValue)
        else Ok([Parameter(id, FromBigEndian(segment[2..]))])
  }

  /** `readParaeter` on any payload: the segments in 6-octet strides, the last one possibly shorter. */
  function ReadSettings(payload: seq<uint8>): (r: Result<seq<Parameter>, ReadError>)
    ensures r.Err? ==> 2 <= |payload| % EntrySize
    ensures r.Ok? ==> forall i :: 0 <= i < |r.value| ==> r.value[i].value < Limit32
    decreases |payload|
  {
    if |payload| == 0 then Ok([])
    else
      var n := if |payload| < EntrySize then |payload| else EntrySize;
      match ReadSegment(payload[..n])
      case Err(e) => Err(e)
      case Ok(first) =>
        match ReadSettings(payload[n..])
        case Err(e) => Err(e)
        case Ok(rest) => Ok(first + rest)
  }

  /** On a payload of whole entries `readParaeter` never fails and reads every known entry. */
  lemma {:induction false} ReadSettingsWhole(payload: seq<uint8>)
    requires |payload| % EntrySize == 0
    ensures ReadSettings(payload) == Ok(ReadParameters(payload))
    decreases |payload|
  {
    if |payload| > 0 {
      ReadSettingsWhole(payload[EntrySize..]);
    }
  }

  /** A trailing fragment shorter than an entry fails the reading exactly when it has an octet 1 holding
      a known code; otherwise it is skipped and the whole entries before it are read. */
  lemma {:induction false} ReadSettingsFragment(whole: seq<uint8>, fragment: seq<uint8>)
    requires |whole| % EntrySize == 0 && 0 < |fragment| < EntrySize
    ensures ReadSettings(whole + fragment)
            == if |fragment| >= 2 && 1 <= fragment[1] <= 6 then Err(TruncatedValue)
               else Ok(ReadParameters(whole))
    decreases |whole|
  {
    if |whole| == 0 {
      assert whole + fragment == fragment;
      assert fragment[..|fragment|] == fragment;
      assert ReadSettings(fragment[|fragment|..]) == Ok([]);
      assert ReadParameters(whole) == [];
      if !(|fragment| >= 2 && 1 <= fragment[1] <= 6) {
        var none: seq<Parameter> := [];
        assert ReadSegment(fragment) == Ok(none);
        assert none + none == none;
      }
    } else {
      var p := whole + fragment;
      assert p[..EntrySize] == whole[..EntrySize];
      assert p[EntrySize..] == whole[EntrySize..] + fragment;
      ReadSettingsFragment(whole[EntrySize..], fragment);
    }
  }

  /** The step of the loop that meets a last segment shorter than an entry. */
  lemma LastSegment(payload: seq<uint8>, i: nat)
    requires i % EntrySize == 0 && i < |payload| < i + EntrySize
    ensures var segment := payload[i..];
            ReadSettings(payload)
            == if |segment| >= 2 && 1 <= segment[1] <= 6 then Err(TruncatedValue)
               else Ok(ReadParameters(payload[..i]))
  {
    ReadSettingsFragment(payload[..i], payload[i..]);
    assert payload[..i] + payload[i..] == payload;
  }

  /** The loop of `readParaeter`, walking the payload in 6-octet strides. */
  method ReadSettingsLoop(payload: seq<uint8>) returns (r: Result<seq<Parameter>, ReadError>)
    ensures r == ReadSettings(payload)
  {
    var params: seq<Parameter> := [];
    var i := 0;
    while i < |payload|
      invariant 0 <= i <= |payload| && i % EntrySize == 0
      invariant params == ReadParameters(payload[..i])
    {
      if |payload| - i < EntrySize {
        // the last segment, shorter than an entry
        var segment := payload[i..];
        LastSegment(payload, i);
        if |segment| >= 2 && IdFromCode(segment[1]).Some? {
          return Err(TruncatedValue);
        }
        return Ok(params);
      }
      // a whole entry: its parameter when the code is known, nothing otherwise
      ReadParametersSnoc(payload, i);
      params := params + SegmentParameters(payload[i..i + EntrySize]);
      i := i + EntrySize;
    }
    assert payload[..i] == payload;
    ReadSettingsWhole(payload);
    return Ok(params);
  }

  /** `setParameter`: appends one entry to a SETTINGS frame's payload and returns the new length;
      an unknown name throws "invalid identifier". */
  function SetParameter(tf: TypedFrame, name: string, value: nat): (r: Result<(TypedFrame, nat), FrameError>)
    requires ValidTyped(tf) && tf.kind == SettingsFrame
    requires value < Limit32
    requires |tf.frame.payload| + EntrySize < Limit24
    ensures r.Err? <==> IdFromName(name).None?
    ensures r.Err? ==> r.error == InvalidIdentifier
    ensures r.Ok? ==>
              && ValidTyped(r.value.0)
              && r.value.0.kind == SettingsFrame
              && r.value.0.frame.payload == tf.frame.payload + EncodeEntry(Parameter(IdFromName(name).value, value))
              && r.value.1 == r.value.0.frame.length == |tf.frame.payload| + EntrySize
              && r.value.0.frame.header[3..] == tf.frame.header[3..]
              && r.value.0.flagString == tf.flagString
  {
    match IdFromName(name)
    case None => Err(InvalidIdentifier)
    case Some(id) =>
      var updated := UpdatePayload(tf.frame, tf.frame.payload + EncodeEntry(Parameter(id, value)));
      Ok((tf.(frame := updated.0), updated.1))
  }

  /** After `setParameter`, reading the parameters gives the earlier ones followed by the new one. */
  lemma SetThenRead(tf: TypedFrame, id: SettingsId, value: nat)
    requires ValidTyped(tf) && tf.kind == SettingsFrame
    requires value < Limit32
    requires |tf.frame.payload| + EntrySize < Limit24
    requires |tf.frame.payload| % EntrySize == 0
    ensures var r := SetParameter(tf, id.Name(), value);
            && r.Ok?
            && |r.value.0.frame.payload| % EntrySize == 0
            && ReadParameters(r.value.0.frame.payload) == ReadParameters(tf.frame.payload) + [Parameter(id, value)]
  {
    IdRoundTrips(id);
    ReadAfterAppend(tf.frame.payload, Parameter(id, value));
  }

  /** Appending one entry to a payload of whole entries appends its parameter to the reading. */
  lemma ReadAfterAppend(payload: seq<uint8>, p: Parameter)
    requires |payload| % EntrySize == 0 && p.value < Limit32
    ensures |payload + EncodeEntry(p)| % EntrySize == 0
    ensures ReadParameters(payload + EncodeEntry(p)) == ReadParameters(payload) + [p]
  {
    var e := EncodeEntry(p);
    ReadParametersAppend(payload, e);
    assert e[..EntrySize] == e && e[EntrySize..] == [];
    EntryRoundTrip(p);
  }

  /** Regrouping a concatenation, stated as a lemma so that the proof of `SetParameters` uses this one
      instance instead of searching the sequence axioms for it. */
  lemma AppendAssociates(a: seq<uint8>, b: seq<uint8>, c: seq<uint8>)
    ensures (a + b) + c == a + (b + c)
  {
  }

  /** One successful `setParameter` call, naming the parameter by its own name. */
  function SetOne(tf: TypedFrame, p: Parameter): (r: TypedFrame)
    requires ValidTyped(tf) && tf.kind == SettingsFrame
    requires p.value < Limit32
    requires |tf.frame.payload| + EntrySize < Limit24
    ensures ValidTyped(r) && r.kind == SettingsFrame
    ensures r.frame.payload == tf.frame.payload + EncodeEntry(p)
  {
    IdRoundTrips(p.id);
    SetParameter(tf, p.id.Name(), p.value).value.0
  }

  /** A series of `setParameter` calls, by each parameter's own name. */
  function SetParameters(tf: TypedFrame, ps: seq<Parameter>): (r: TypedFrame)
    requires ValidTyped(tf) && tf.kind == SettingsFrame
    requires forall i :: 0 <= i < |ps| ==> ps[i].value < Limit32
    requires |tf.frame.payload| + EntrySize * |ps| < Limit24
    ensures ValidTyped(r) && r.kind == SettingsFrame
    ensures r.frame.payload == tf.frame.payload + EncodeParameters(ps)
  {
    if |ps| == 0 then
      assert tf.frame.payload + [] == tf.frame.payload;
      tf
    else
      var init := ps[..|ps| - 1];
      var before := SetParameters(tf, init);
      assert |before.frame.payload| == |tf.frame.payload| + EntrySize * |init|;
      assert EntrySize * |init| + EntrySize == EntrySize * |ps|;
      var r := SetOne(before, ps[|ps| - 1]);
      AppendAssociates(tf.frame.payload, EncodeParameters(init), EncodeEntry(ps[|ps| - 1]));
      r
  }

  /** Setting parameters one by one on a fresh SETTINGS frame and reading them back returns
      them in insertion order. */
  lemma ReadBackInInsertionOrder(ps: seq<Parameter>)
    requires forall i :: 0 <= i < |ps| ==> ps[i].value < Limit32
    requires EntrySize * |ps| < Limit24
    ensures var payload := SetParameters(Create(SettingsFrame, None), ps).frame.payload;
            ReadSettings(payload) == Ok(ps)
  {
    var empty := Create(SettingsFrame, None);
    var payload := SetParameters(empty, ps).frame.payload;
    assert payload == EncodeParameters(ps) by {
      assert empty.frame.payload == [];
      assert empty.frame.payload + EncodeParameters(ps) == EncodeParameters(ps);
    }
    ReadEncodedParameters(ps);
    ReadSettingsWhole(payload);
  }
}
