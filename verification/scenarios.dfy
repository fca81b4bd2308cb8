/** Concrete frames from the repository's test suite (test.ts), stated over the model. */
module Scenarios {
  import opened Results
  import opened Bytes
  import opened Frames
  import opened TypedFrames
  import opened SettingsParameters

  /** A ten-octet header, and a header announcing one octet with no payload, are rejected;
      typed constructors reject a wrong or missing type octet before anything else. */
  lemma ConstructorErrors()
    ensures NewFrame([0, 0, 0, 0, 0, 0, 0, 0, 0, 0], None) == Err(InvalidFrameHeader)
    ensures NewFrame([0, 0, 1, 0, 0, 0, 0, 0, 0], None) == Err(InvalidPayloadLength)
    ensures NewTyped(DataFrame, [0, 0, 0, 1, 0, 0, 0, 0, 0], None) == Err(InvalidFrameType)
    ensures NewTyped(SettingsFrame, [], None) == Err(InvalidFrameType)
  {
    var h: seq<uint8> := [0, 0, 1, 0, 0, 0, 0, 0, 0];
    assert h[..3] == [0, 0, 1];
    assert FromBigEndian([0, 0, 1]) == 1;
  }

  /** DATA flag octets 0, 1, 8 and 9 name nothing, END_STREAM, PADDED, and both in that order. */
  lemma DataFlagNames()
    ensures DataFlags(0) == []
    ensures DataFlags(1) == [EndStream]
    ensures DataFlags(8) == [Padded]
    ensures DataFlags(9) == [EndStream, Padded]
  {
  }

  /** Rewriting type, flag and stream identifier 1 of an all-zero frame makes it a HEADERS frame
      whose last header octet is 1. */
  lemma UpdateAllHeaderFields()
    ensures var f := NewFrame([0, 0, 0, 0, 0, 0, 0, 0, 0], None);
            && f.Ok?
            && var g := UpdateHeader(f.value, Some(1), Some(1), Some(1));
            && g.typeString == "HEADERS"
            && g.header[3] == 1 && g.header[4] == 1 && g.header[8] == 1
            && g.streamIdentifier == 1
  {
    assert Be32(1) == [0, 0, 0, 1];
    var h: seq<uint8> := [0, 0, 0, 0, 0, 0, 0, 0, 0];
    assert h[..3] == [0, 0, 0];
    assert FromBigEndian([0, 0, 0]) == 0;
  }

  /** Setting HEADER_TABLE_SIZE to 4096 on an empty SETTINGS frame gives the payload
      [0, 1, 0, 0, 16, 0] and returns 6; reading before gives nothing, reading after gives that one parameter. */
  lemma HeaderTableSizeParameter()
    ensures var r := SetParameter(Create(SettingsFrame, None), "SETTINGS_HEADER_TABLE_SIZE", 4096);
            && r.Ok?
            && r.value.0.frame.payload == [0, 1, 0, 0, 16, 0]
            && r.value.1 == 6
            && ReadSettings(Create(SettingsFrame, None).frame.payload) == Ok([])
            && ReadSettings(r.value.0.frame.payload) == Ok([Parameter(HeaderTableSize, 4096)])
  {
    assert Be32(4096) == [0, 0, 16, 0];
    var empty := Create(SettingsFrame, None);
    SetThenRead(empty, HeaderTableSize, 4096);
    assert ReadParameters(empty.frame.payload) == [];
    var payload := SetParameter(empty, "SETTINGS_HEADER_TABLE_SIZE", 4096).value.0.frame.payload;
    assert ReadParameters(payload) == [Parameter(HeaderTableSize, 4096)];
    ReadSettingsWhole(payload);
  }

  /** The SETTINGS entry for HEADER_TABLE_SIZE 4096. */
  lemma HeaderTableSizeEntry()
    ensures EncodeEntry(Parameter(HeaderTableSize, 4096)) == [0, 1, 0, 0, 16, 0]
  {
    assert Be32(4096) == [0, 0, 16, 0];
  }

  /** Setting ENABLE_PUSH to 0 next, on the SETTINGS frame `HeaderTableSizeParameter` yields, returns 12,
      puts code 2 at octet 7 and value 0 at octet 11, and reading gives both parameters in the order
      they were set. */
  lemma EnablePushParameter(first: TypedFrame)
    requires ValidTyped(first) && first.kind == SettingsFrame
    requires first.frame.payload == [0, 1, 0, 0, 16, 0]
    ensures var r := SetParameter(first, "SETTINGS_ENABLE_PUSH", 0);
            && r.Ok?
            && r.value.1 == |r.value.0.frame.payload| == 12
            && r.value.0.frame.payload[7] == 2
            && r.value.0.frame.payload[11] == 0
            && ReadSettings(r.value.0.frame.payload)
                 == Ok([Parameter(HeaderTableSize, 4096), Parameter(EnablePush, 0)])
  {
    var p1 := Parameter(HeaderTableSize, 4096);
    var p2 := Parameter(EnablePush, 0);
    var entry := EncodeEntry(p2);
    assert entry == [0, 2, 0, 0, 0, 0] by {
      assert Be32(0) == [0, 0, 0, 0];
    }
    HeaderTableSizeEntry();
    var payload := EncodeEntry(p1) + entry;
    assert SetParameter(first, "SETTINGS_ENABLE_PUSH", 0).value.0.frame.payload == payload by {
      IdRoundTrips(EnablePush);
    }
    assert payload[7] == entry[1] && payload[11] == entry[5];
    ReadTwoEntries(p1, p2);
  }

  /** Two encoded entries read back, without failure, as their two parameters in order. */
  lemma ReadTwoEntries(p1: Parameter, p2: Parameter)
    requires p1.value < Limit32 && p2.value < Limit32
    ensures ReadSettings(EncodeEntry(p1) + EncodeEntry(p2)) == Ok([p1, p2])
  {
    var none: seq<uint8> := [];
    ReadAfterAppend(none, p1);
    assert none + EncodeEntry(p1) == EncodeEntry(p1);
    assert ReadParameters(none) == [];
    ReadAfterAppend(EncodeEntry(p1), p2);
    assert ReadParameters(EncodeEntry(p1)) == [p1];
    assert [p1] + [p2] == [p1, p2];
    ReadSettingsWhole(EncodeEntry(p1) + EncodeEntry(p2));
  }
}
