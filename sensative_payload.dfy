/** The Sensative "Strips" tag-value frame: a `FF FF` header, then for every
    populated property, in declaration order, its index byte (1..22) and
    its value bytes; a frame with no populated property gets one `00`.

    The value wrappers are datatypes: `DoubleValue` (tenths, truncated,
    16-bit big-endian), `BoolValue` (with the null-aware `!`), `ByteValue`,
    `ByteStateValue` (with its state name), `Int16Value` (with the `+` that
    resets to 0 past 32767) and `Alarms` (two bit flags). */
module SensativePayload {

  import opened Wrappers
  import opened Bytes

  /** A `double` reading (its floating-point rounding is not modelled). */
  type Reading = real

  datatype DoubleValue = DoubleValue(value: Reading)
  datatype BoolValue = BoolValue(value: bool)
  datatype ByteValue = ByteValue(value: byte)
  datatype ByteStateValue = ByteStateValue(value: byte)
  datatype Int16Value = Int16Value(value: int16)
  datatype Alarms = Alarms(highAlarm: bool, lowAlarm: bool)

  /** `DoubleValue.Encode`: the tenths, truncated toward zero and narrowed
      to a `short`, big-endian. */
  function EncodeDouble(d: DoubleValue): (bs: seq<byte>)
    ensures |bs| == 2
    ensures ReadInt16BigEndian(bs[0], bs[1]) == WrapInt16(Trunc(d.value * 10.0))
    ensures -0x8000 <= Trunc(d.value * 10.0) < 0x8000 ==> ReadInt16BigEndian(bs[0], bs[1]) == Trunc(d.value * 10.0)
  {
    var tenths := WrapInt16(Trunc(d.value * 10.0));
    Int16BigEndianRoundTrip(tenths);
    Int16BigEndian(tenths)
  }

  /** `BoolValue.Encode`: one byte, 1 for true and 0 for false. */
  function EncodeBool(b: BoolValue): (bs: seq<byte>)
    ensures |bs| == 1 && bs[0] < 2
    ensures bs[0] == 1 <==> b.value
  {
    [if b.value then 1 else 0]
  }

  /** `BoolValue.operator !`: a null operand yields true, any other the
      negation of its value. */
  function Not(lhs: Option<BoolValue>): (r: BoolValue)
    ensures lhs.None? ==> r.value
    ensures lhs.Some? ==> r.value != lhs.value.value
  {
    match lhs
    case None => BoolValue(true)
    case Some(b) => BoolValue(!b.value)
  }

  /** Negating twice restores a present value. */
  lemma NotNot(b: BoolValue)
    ensures Not(Some(Not(Some(b)))) == b
  {
  }

  /** `Int16Value.operator +`: a null operand counts as 0; the sum is formed
      in 32-bit `int`, and a sum beyond `short.MaxValue` yields 0, any other
      sum its `short` narrowing. */
  function Plus(rhs: Option<Int16Value>, lhs: int32): (r: Int16Value)
    ensures var n := (if rhs.Some? then rhs.value.value else 0) + lhs;
            -0x8000 <= n <= Int16MaxValue ==> r.value == n
    ensures var n := (if rhs.Some? then rhs.value.value else 0) + lhs;
            Int16MaxValue < n < 0x8000_0000 ==> r.value == 0
    ensures var n := WrapInt32((if rhs.Some? then rhs.value.value else 0) + lhs);
            r.value == if Int16MaxValue < n then 0 else WrapInt16(n)
    ensures var sum := (if rhs.Some? then rhs.value.value else 0) + lhs;
            WrapInt32(sum) <= Int16MaxValue ==> (r.value - sum) % 0x1_0000 == 0
  {
    var sum := WrapInt32((if rhs.Some? then rhs.value.value else 0) + lhs);
    Int16Value(if sum > Int16MaxValue then 0 else WrapInt16(sum))
  }

  /** Adding one counts up from 0 (for null) and wraps to 0 after 32767. */
  lemma PlusOne(rhs: Option<Int16Value>)
    ensures rhs.None? ==> Plus(rhs, 1).value == 1
    ensures rhs.Some? && rhs.value.value < Int16MaxValue ==> Plus(rhs, 1).value == rhs.value.value + 1
    ensures rhs.Some? && rhs.value.value == Int16MaxValue ==> Plus(rhs, 1).value == 0
  {
  }

  /** `Int16Value.Encode`: the value big-endian. */
  function EncodeInt16(v: Int16Value): (bs: seq<byte>)
    ensures |bs| == 2
    ensures ReadInt16BigEndian(bs[0], bs[1]) == v.value
  {
    Int16BigEndianRoundTrip(v.value);
    Int16BigEndian(v.value)
  }

  /** `Alarms.Encode`: one byte, bit 0 the high alarm, bit 1 the low alarm,
      every other bit clear. */
  function EncodeAlarms(a: Alarms): (bs: seq<byte>)
    ensures |bs| == 1 && bs[0] < 4
    ensures bs[0] % 2 == 1 <==> a.highAlarm
    ensures (bs[0] / 2) % 2 == 1 <==> a.lowAlarm
  {
    [(if a.highAlarm then 0x01 else 0) + (if a.lowAlarm then 0x02 else 0)]
  }

  /** Reads the two alarm flags back from a byte. */
  function DecodeAlarms(b: byte): Alarms {
    Alarms(b % 2 == 1, (b / 2) % 2 == 1)
  }

  /** The alarm byte carries both flags without loss. */
  lemma {:induction false} AlarmsRoundTrip(a: Alarms)
    ensures DecodeAlarms(EncodeAlarms(a)[0]) == a
  {
    var b := EncodeAlarms(a)[0];
    assert b % 2 == 1 <==> a.highAlarm;
    assert (b / 2) % 2 == 1 <==> a.lowAlarm;
  }

  /** `ByteStateValue.State`. */
  function State(v: ByteStateValue): string {
    match v.value
    case 0 => "dirty"
    case 1 => "occupied"
    case 2 => "cleaning"
    case _ => "clean"
  }

  /** The state code a name stands for (the smallest, for "clean"). */
  function StateCode(name: string): Option<byte> {
    if name == "dirty" then Some(0)
    else if name == "occupied" then Some(1)
    else if name == "cleaning" then Some(2)
    else if name == "clean" then Some(3)
    else None
  }

  /** Codes 0, 1 and 2 have names of their own; every larger code is
      "clean". */
  lemma StateNames(v: ByteStateValue)
    ensures StateCode(State(v)) == Some(if v.value < 3 then v.value else 3)
  {
  }

  /** A property value, as `property.GetValue` returns it: a boxed `byte`
      (the `Battery` property) or one of the wrappers. */
  datatype Encodable =
    | RawByte(b: byte)
    | DoubleV(d: DoubleValue)
    | BoolV(bv: BoolValue)
    | ByteV(bt: ByteValue)
    | ByteStateV(bs: ByteStateValue)
    | Int16V(i: Int16Value)
    | AlarmsV(a: Alarms)

  /** Bytes a value contributes after its index byte. */
  function Width(e: Encodable): nat {
    match e
    case DoubleV(_) => 2
    case Int16V(_) => 2
    case _ => 1
  }

  /** A wrapper's `Encode`, or the boxed byte itself. */
  function EncodeValue(e: Encodable): (bs: seq<byte>)
    ensures |bs| == Width(e)
  {
    match e
    case RawByte(b) => [b]
    case DoubleV(d) => EncodeDouble(d)
    case BoolV(b) => EncodeBool(b)
    case ByteV(b) => [b.value]
    case ByteStateV(s) => [s.value]
    case Int16V(i) => EncodeInt16(i)
    case AlarmsV(a) => EncodeAlarms(a)
  }

  /** The 22 indexed properties of `SensativePayload`, null when absent. */
  datatype Payload = Payload(
    battery: Option<byte>,
    temperature: Option<DoubleValue>,
    tempAlarm: Option<Alarms>,
    averageTemperature: Option<DoubleValue>,
    avgTempAlarm: Option<Alarms>,
    humidity: Option<DoubleValue>,
    lux: Option<DoubleValue>,
    lux2: Option<DoubleValue>,
    door: Option<BoolValue>,
    tamperReport: Option<ByteValue>,
    tamperAlarm: Option<ByteValue>,
    flood: Option<ByteValue>,
    floodAlarm: Option<ByteValue>,
    oilAlarm: Option<ByteValue>,
    foilAlarm: Option<ByteValue>,
    userSwitch1Alarm: Option<ByteValue>,
    doorCount: Option<Int16Value>,
    presence: Option<ByteValue>,
    irProximity: Option<Int16Value>,
    irCloseProximity: Option<Int16Value>,
    closeProximityAlarm: Option<ByteValue>,
    disinfectAlarm: Option<ByteStateValue>)

  /** `new SensativePayload()`: every property null. */
  const Empty: Payload := Payload(None, None, None, None, None, None, None, None, None, None, None,
                                  None, None, None, None, None, None, None, None, None, None, None)

  /** One reflected property: its `[Index]` and its value. */
  datatype Property = Property(index: byte, value: Option<Encodable>)

  function OfByte(o: Option<byte>): Option<Encodable> {
    if o.Some? then Some(RawByte(o.value)) else None
  }
  function OfDouble(o: Option<DoubleValue>): Option<Encodable> {
    if o.Some? then Some(DoubleV(o.value)) else None
  }
  function OfBool(o: Option<BoolValue>): Option<Encodable> {
    if o.Some? then Some(BoolV(o.value)) else None
  }
  function OfByteValue(o: Option<ByteValue>): Option<Encodable> {
    if o.Some? then Some(ByteV(o.value)) else None
  }
  function OfByteState(o: Option<ByteStateValue>): Option<Encodable> {
    if o.Some? then Some(ByteStateV(o.value)) else None
  }
  function OfInt16(o: Option<Int16Value>): Option<Encodable> {
    if o.Some? then Some(Int16V(o.value)) else None
  }
  function OfAlarms(o: Option<Alarms>): Option<Encodable> {
    if o.Some? then Some(AlarmsV(o.value)) else None
  }

  /** The public instance properties in declaration order, as
      `GetProperties` lists them. */
  function Properties(p: Payload): (ps: seq<Property>)
    ensures |ps| == 22
    ensures forall i :: 0 <= i < |ps| ==> ps[i].index == i + 1
  {
    [ Property(1, OfByte(p.battery)),
      Property(2, OfDouble(p.temperature)),
      Property(3, OfAlarms(p.tempAlarm)),
      Property(4, OfDouble(p.averageTemperature)),
      Property(5, OfAlarms(p.avgTempAlarm)),
      Property(6, OfDouble(p.humidity)),
      Property(7, OfDouble(p.lux)),
      Property(8, OfDouble(p.lux2)),
      Property(9, OfBool(p.door)),
      Property(10, OfByteValue(p.tamperReport)),
      Property(11, OfByteValue(p.tamperAlarm)),
      Property(12, OfByteValue(p.flood)),
      Property(13, OfByteValue(p.floodAlarm)),
      Property(14, OfByteValue(p.oilAlarm)),
      Property(15, OfByteValue(p.foilAlarm)),
      Property(16, OfByteValue(p.userSwitch1Alarm)),
      Property(17, OfInt16(p.doorCount)),
      Property(18, OfByteValue(p.presence)),
      Property(19, OfInt16(p.irProximity)),
      Property(20, OfInt16(p.irCloseProximity)),
      Property(21, OfByteValue(p.closeProximityAlarm)),
      Property(22, OfByteState(p.disinfectAlarm)) ]
  }

  /** What one property appends: nothing when null, else its index byte and
      its value bytes. */
  function Entry(pr: Property): seq<byte> {
    match pr.value
    case None => []
    case Some(v) => [pr.index] + EncodeValue(v)
  }

  /** The entries of a run of properties, in order. */
  function Entries(ps: seq<Property>): seq<byte> {
    if ps == [] then [] else Entry(ps[0]) + Entries(ps[1..])
  }

  const Header: seq<byte> := [0xFF, 0xFF]

  /** The frame `SensativePayload.Encode` returns. */
  function Frame(p: Payload): seq<byte> {
    FrameOf(Properties(p))
  }

  /** Header, the entries of the properties, and the empty-frame byte when
      there are no entries. */
  function FrameOf(ps: seq<Property>): seq<byte> {
    var body := Entries(ps);
    Header + body + (if body == [] then [0] else [])
  }

  /** `SensativePayload.Encode`: appends the header, then each property's
      entry, then the empty-frame byte when nothing was appended. */
  method Encode(p: Payload) returns (frame: seq<byte>)
    ensures frame == Frame(p)
  {
    var buffer: seq<byte> := [0xFF, 0xFF];
    buffer := AppendEntries(buffer, Properties(p));
    if |buffer| == 2 {
      buffer := buffer + [0];
    }
    frame := buffer;
  }

  /** The `foreach` of `Encode`: each non-null property appends its index
      byte and its value bytes to the buffer. */
  method AppendEntries(start: seq<byte>, properties: seq<Property>) returns (buffer: seq<byte>)
    ensures buffer == start + Entries(properties)
  {
    buffer := start;
    var i := 0;
    while i < |properties|
      invariant 0 <= i <= |properties|
      invariant buffer == start + Entries(properties[..i])
    {
      var property := properties[i];
      ghost var before := buffer;
      match property.value {
        case Some(v) =>
          buffer := buffer + [property.index] + EncodeValue(v);
        case None =>
      }
      assert buffer == before + Entry(property);
      EntriesStep(properties, i);
      AppendAssoc(start, Entries(properties[..i]), Entry(property));
      i := i + 1;
    }
    assert properties[..i] == properties;
  }

  /** The entries up to `i + 1` extend those up to `i` by the entry of
      property `i`. */
  lemma EntriesStep(ps: seq<Property>, i: int)
    requires 0 <= i < |ps|
    ensures Entries(ps[..i + 1]) == Entries(ps[..i]) + Entry(ps[i])
  {
    assert ps[..i + 1] == ps[..i] + [ps[i]];
    EntriesConcat(ps[..i], [ps[i]]);
    assert Entries([ps[i]]) == Entry(ps[i]) + Entries([]);
  }

  lemma AppendAssoc(a: seq<byte>, b: seq<byte>, c: seq<byte>)
    ensures a + b + c == a + (b + c)
  {
  }

  /** Entries of a concatenation are the concatenated entries: each
      property contributes at its own position. */
  lemma {:induction false} EntriesConcat(a: seq<Property>, b: seq<Property>)
    ensures Entries(a + b) == Entries(a) + Entries(b)
  {
    if a == [] {
      assert a + b == b;
    } else {
      assert (a + b)[0] == a[0];
      assert (a + b)[1..] == a[1..] + b;
      EntriesConcat(a[1..], b);
    }
  }

  /** Nothing is appended exactly when every property is null. */
  lemma {:induction false} EntriesEmpty(ps: seq<Property>)
    ensures Entries(ps) == [] <==> forall i :: 0 <= i < |ps| ==> ps[i].value.None?
  {
    if ps != [] {
      EntriesEmpty(ps[1..]);
      if ps[0].value.None? {
        forall i | 0 <= i < |ps| && (forall j :: 0 <= j < |ps[1..]| ==> ps[1..][j].value.None?)
          ensures ps[i].value.None?
        {
          if i > 0 { assert ps[i] == ps[1..][i - 1]; }
        }
      }
    }
  }

  /** Bytes the populated properties of a run contribute: one index byte
      plus the value's width each. */
  function PopulatedSize(ps: seq<Property>): nat {
    if ps == [] then 0
    else (if ps[0].value.Some? then 1 + Width(ps[0].value.value) else 0) + PopulatedSize(ps[1..])
  }

  lemma {:induction false} EntriesLength(ps: seq<Property>)
    ensures |Entries(ps)| == PopulatedSize(ps)
  {
    if ps != [] {
      EntriesLength(ps[1..]);
    }
  }

  /** Every frame starts with `FF FF` and is at least three bytes long. */
  lemma FrameHeader(p: Payload)
    ensures |Frame(p)| >= 3 && Frame(p)[0] == 0xFF && Frame(p)[1] == 0xFF
  {
    EntriesLength(Properties(p));
  }

  /** The frame is exactly `FF FF 00` when no property is populated, and
      otherwise carries no trailing 0 of its own; `Frame(p)` is
      `FrameOf(Properties(p))`. */
  lemma {:induction false} FrameEmpty(ps: seq<Property>)
    ensures (forall i :: 0 <= i < |ps| ==> ps[i].value.None?) <==> FrameOf(ps) == [0xFF, 0xFF, 0x00]
    ensures (exists i :: 0 <= i < |ps| && ps[i].value.Some?) ==> FrameOf(ps) == Header + Entries(ps)
  {
    EntriesEmpty(ps);
    if FrameOf(ps) == [0xFF, 0xFF, 0x00] && Entries(ps) != [] {
      EntriesLength(ps);
      assert |Entries(ps)| == 1;
      var k :| 0 <= k < |ps| && ps[k].value.Some?;
      SingleEntryTooShort(ps, k);
    }
  }

  /** A populated property contributes at least two bytes. */
  lemma {:induction false} SingleEntryTooShort(ps: seq<Property>, k: int)
    requires 0 <= k < |ps| && ps[k].value.Some?
    ensures PopulatedSize(ps) >= 2
  {
    if k > 0 {
      assert ps[1..][k - 1] == ps[k];
      SingleEntryTooShort(ps[1..], k - 1);
    }
  }

  /** Frame length: 3 when nothing is populated, else 2 plus one index byte
      and the value width for each populated property. */
  lemma FrameLength(p: Payload)
    ensures |Frame(p)| == if PopulatedSize(Properties(p)) == 0 then 3 else 2 + PopulatedSize(Properties(p))
  {
    EntriesLength(Properties(p));
  }

  /** A populated property at position `k` appears as its index byte
      followed by its value bytes, after the entries of the properties
      before it and before those after it; `Frame(p)` is
      `FrameOf(Properties(p))`, whose property `k` has index `k + 1`. */
  lemma {:induction false} FrameAt(ps: seq<Property>, k: int)
    requires 0 <= k < |ps| && ps[k].value.Some?
    ensures FrameOf(ps) == Header + Entries(ps[..k]) + [ps[k].index]
                           + EncodeValue(ps[k].value.value) + Entries(ps[k + 1..])
  {
    EntriesAt(ps, k);
    assert Entries(ps) != [];
  }

  /** The entries of a run split around a populated property `k`. */
  lemma {:induction false} EntriesAt(ps: seq<Property>, k: int)
    requires 0 <= k < |ps| && ps[k].value.Some?
    ensures Entries(ps) == Entries(ps[..k]) + [ps[k].index] + EncodeValue(ps[k].value.value) + Entries(ps[k + 1..])
  {
    assert ps[..k + 1] == ps[..k] + [ps[k]];
    assert ps == ps[..k + 1] + ps[k + 1..];
    EntriesConcat(ps[..k + 1], ps[k + 1..]);
    EntriesConcat(ps[..k], [ps[k]]);
    assert Entries([ps[k]]) == Entry(ps[k]);
  }

  /** A reading of 21.3 travels as the big-endian `short` 213 (`00 D5`). */
  lemma TemperatureExample()
    ensures EncodeDouble(DoubleValue(21.3)) == [0x00, 0xD5]
    ensures EncodeDouble(DoubleValue(-0.55)) == [0xFF, 0xFB]
  {
  }
}
