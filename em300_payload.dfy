/** The Milesight EM300-TH channel-triplet frame: for each present reading,
    in the fixed order battery, temperature, humidity, the channel id, the
    channel type and the value bytes.

    The record holds the results of the source's casts, not its doubles:
    `(byte)Battery`, `(short)(Temperature * 10)` and `(byte)(Humidity * 2)`;
    what those casts do with the floating-point readings is not modelled. */
module Em300Payload {

  import opened Wrappers
  import opened Bytes

  datatype Payload = Payload(
    battery: Option<byte>,
    temperatureTenths: Option<int16>,
    humidityHalves: Option<byte>)

  const Empty: Payload := Payload(None, None, None)

  /** Channel 0x01, type 0x75: battery, one byte, percent. */
  function BatterySection(p: Payload): seq<byte> {
    if p.battery.Some? then [0x01, 0x75, p.battery.value] else []
  }

  /** Channel 0x03, type 0x67: temperature tenths, `short` little-endian. */
  function TemperatureSection(p: Payload): seq<byte> {
    if p.temperatureTenths.Some? then [0x03, 0x67] + Int16LittleEndian(p.temperatureTenths.value) else []
  }

  /** Channel 0x04, type 0x68: humidity in half percent, one byte. */
  function HumiditySection(p: Payload): seq<byte> {
    if p.humidityHalves.Some? then [0x04, 0x68, p.humidityHalves.value] else []
  }

  /** The frame `Em300Payload.Encode` returns. */
  function Frame(p: Payload): seq<byte> {
    BatterySection(p) + TemperatureSection(p) + HumiditySection(p)
  }

  /** `Em300Payload.Encode`: fills a 10-byte scratch buffer through a running
      index, section by section, then cuts it to the index (`Array.Resize`). */
  method Encode(p: Payload) returns (frame: seq<byte>)
    ensures frame == Frame(p)
    ensures |frame| <= 10
  {
    var buffer := new byte[10];
    var index := 0;
    if p.battery.Some? {
      CopyTo([0x01, 0x75, p.battery.value], buffer, index);
      index := index + 3;
    }
    if p.temperatureTenths.Some? {
      CopyTo([0x03, 0x67] + Int16LittleEndian(p.temperatureTenths.value), buffer, index);
      index := index + 4;
    }
    if p.humidityHalves.Some? {
      CopyTo([0x04, 0x68, p.humidityHalves.value], buffer, index);
      index := index + 3;
    }
    frame := buffer[..index];
  }

  /** Writes `src` into `buffer` from `index` on: `buffer[index++] = b`
      for each byte, or `src.CopyTo(buffer, index)`. */
  method CopyTo(src: seq<byte>, buffer: array<byte>, index: nat)
    requires index + |src| <= buffer.Length
    modifies buffer
    ensures buffer[..index + |src|] == old(buffer[..index]) + src
  {
    var k := 0;
    while k < |src|
      invariant 0 <= k <= |src|
      invariant buffer[..index + k] == old(buffer[..index]) + src[..k]
    {
      buffer[index + k] := src[k];
      assert buffer[..index + k + 1] == buffer[..index + k] + [src[k]];
      k := k + 1;
    }
    assert src[..k] == src;
  }

  /** Three bytes for battery, four for temperature, three for humidity;
      never more than the scratch buffer. */
  lemma FrameLength(p: Payload)
    ensures |Frame(p)| == (if p.battery.Some? then 3 else 0)
                          + (if p.temperatureTenths.Some? then 4 else 0)
                          + (if p.humidityHalves.Some? then 3 else 0)
    ensures |Frame(p)| <= 10
  {
  }

  /** Nothing present, nothing written; everything present, all ten bytes. */
  lemma FrameExtremes(p: Payload)
    ensures p == Empty <==> Frame(p) == []
    ensures p.battery.Some? && p.temperatureTenths.Some? && p.humidityHalves.Some? <==> |Frame(p)| == 10
  {
  }

  /** Reads a frame back into the record, section by section in the fixed
      order; `None` for any other byte string. */
  function Decode(frame: seq<byte>): Option<Payload> {
    var (battery, rest1) :=
      if |frame| >= 3 && frame[0] == 0x01 && frame[1] == 0x75 then (Some(frame[2]), frame[3..]) else (None, frame);
    var (temperature, rest2) :=
      if |rest1| >= 4 && rest1[0] == 0x03 && rest1[1] == 0x67
      then (Some(ReadInt16BigEndian(rest1[3], rest1[2])), rest1[4..]) else (None, rest1);
    var (humidity, rest3) :=
      if |rest2| >= 3 && rest2[0] == 0x04 && rest2[1] == 0x68 then (Some(rest2[2]), rest2[3..]) else (None, rest2);
    if rest3 == [] then Some(Payload(battery, temperature, humidity)) else None
  }

  /** The channel ids make the frame unambiguous: decoding it gives back the
      record. */
  lemma {:induction false} FrameRoundTrip(p: Payload)
    ensures Decode(Frame(p)) == Some(p)
  {
    if p.temperatureTenths.Some? {
      var v := p.temperatureTenths.value;
      Int16BigEndianRoundTrip(v);
      Int16ByteOrders(v);
    }
  }

  /** A battery of 77 % travels as `01 75 4D`; a temperature of -1.5 degrees
      (tenths -15) as `03 67 F1 FF`. */
  lemma Examples()
    ensures Frame(Payload(Some(77), None, None)) == [0x01, 0x75, 0x4D]
    ensures Frame(Payload(None, Some(-15), None)) == [0x03, 0x67, 0xF1, 0xFF]
  {
  }
}
