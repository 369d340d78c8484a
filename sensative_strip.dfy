/** The newer Sensative "Strips" handler (`lwnsim.Devices.Sensative.SensativeStrip`):
    it claims every device whose name mentions "sensative" in any case, and
    on each uplink request it advances its payload (door toggled, fresh
    temperatures with their alarm flags, a random battery level, the
    closings counted) and enqueues the encoded frame.

    The temperatures come from sine curves over the wall clock and the
    battery from the generator seeded at construction; they are the
    `Readings` inputs here. */
module Sensative {

  import opened Wrappers
  import opened Bytes
  import opened Text
  import opened DeviceValues
  import SP = SensativePayload

  /** The word a device name must contain to be claimed. */
  const Keyword: string := "sensative"

  /** `CanHandleDeviceResponse`: the name contains "sensative", ignoring case;
      the keyword is already lower case, so the folded name holds it as is. */
  function CanHandleDeviceResponse(name: string): (b: bool)
    ensures b <==> Contains(ToLower(name), "sensative")
    ensures b ==> |name| >= 9
  {
    LowerFixed(Keyword);
    var b := ContainsIgnoreCase(name, Keyword);
    if b then ContainsLength(ToLower(name), Keyword); b else b
  }

  /** `_instance ??= new()`: the payload the field holds, a fresh one for null. */
  function Instance(v: Value): (p: SP.Payload)
    ensures v.StripPayloadV? ==> p == v.sp
    ensures !v.StripPayloadV? ==> p == SP.Empty
  {
    if v.StripPayloadV? then v.sp else SP.Empty
  }

  /** `(T > 25, T < 15)`, dropped to null when neither flag is set. */
  function AlarmsFor(r: Reading): (a: Option<SP.Alarms>)
    ensures a.Some? <==> (r > 25.0 || r < 15.0)
    ensures a.Some? ==> (a.value.highAlarm <==> r > 25.0) && (a.value.lowAlarm <==> r < 15.0)
  {
    var a := SP.Alarms(r > 25.0, r < 15.0);
    if a == SP.Alarms(false, false) then None else Some(a)
  }

  /** The payload after one uplink request. */
  function UplinkUpdate(p: SP.Payload, rd: Readings): (q: SP.Payload)
    ensures q.door == Some(SP.Not(p.door))
    ensures q.temperature == Some(SP.DoubleValue(rd.stripTemperature))
    ensures q.averageTemperature == Some(SP.DoubleValue(rd.stripAverageTemperature))
    ensures q.battery == Some(rd.stripBattery as byte)
    ensures q.tempAlarm == AlarmsFor(rd.stripTemperature)
    ensures q.avgTempAlarm == AlarmsFor(rd.stripAverageTemperature)
    ensures q.door.value.value ==> q.doorCount == p.doorCount
    ensures !q.door.value.value ==> q.doorCount == Some(SP.Plus(p.doorCount, 1))
    ensures q.(door := p.door, temperature := p.temperature, averageTemperature := p.averageTemperature,
               battery := p.battery, tempAlarm := p.tempAlarm, avgTempAlarm := p.avgTempAlarm,
               doorCount := p.doorCount) == p
  {
    var door := SP.Not(p.door);
    p.(door := Some(door),
       temperature := Some(SP.DoubleValue(rd.stripTemperature)),
       averageTemperature := Some(SP.DoubleValue(rd.stripAverageTemperature)),
       tempAlarm := AlarmsFor(rd.stripTemperature),
       avgTempAlarm := AlarmsFor(rd.stripAverageTemperature),
       battery := Some(rd.stripBattery as byte),
       doorCount := if door.value then p.doorCount else Some(SP.Plus(p.doorCount, 1)))
  }

  /** `ProcessAsync(ReceiveUplink)`: advances `_instance`, then enqueues the
      encoded payload under the device id. */
  method ProcessUplink(device: SimDevice, rd: Readings) returns (emits: seq<Emit>)
    requires device.dtype == SensativeStrip && device.Valid()
    modifies device
    ensures device.fields == old(device.fields)[InstanceField := StripPayloadV(UplinkUpdate(Instance(old(device.fields)[InstanceField]), rd))]
    ensures emits == [Enqueued(device.Id(), SP.Frame(UplinkUpdate(Instance(old(device.fields)[InstanceField]), rd)))]
    ensures device.Valid()
  {
    var instance := Advance(Instance(device.fields[InstanceField]), rd);
    WellFormedUpdate(device.dtype, device.fields, InstanceField, StripPayloadV(instance));
    device.fields := device.fields[InstanceField := StripPayloadV(instance)];
    var frame := SP.Encode(instance);
    emits := [Enqueued(device.Id(), frame)];
  }

  /** The property assignments of `ProcessAsync(ReceiveUplink)`, one by one
      as the source makes them. */
  method Advance(p: SP.Payload, rd: Readings) returns (instance: SP.Payload)
    ensures instance == UplinkUpdate(p, rd)
  {
    instance := p;
    instance := instance.(door := Some(SP.Not(instance.door)));
    instance := instance.(temperature := Some(SP.DoubleValue(rd.stripTemperature)));
    instance := instance.(averageTemperature := Some(SP.DoubleValue(rd.stripAverageTemperature)));
    instance := instance.(tempAlarm := Some(SP.Alarms(rd.stripTemperature > 25.0, rd.stripTemperature < 15.0)));
    instance := instance.(avgTempAlarm := Some(SP.Alarms(rd.stripAverageTemperature > 25.0, rd.stripAverageTemperature < 15.0)));
    instance := instance.(battery := Some(rd.stripBattery as byte));
    if instance.avgTempAlarm == Some(SP.Alarms(false, false)) {
      instance := instance.(avgTempAlarm := None);
    }
    if instance.tempAlarm == Some(SP.Alarms(false, false)) {
      instance := instance.(tempAlarm := None);
    }
    if instance.door == Some(SP.BoolValue(false)) {
      instance := instance.(doorCount := Some(SP.Plus(instance.doorCount, 1)));
    }
  }

  /** Two uplinks bring a present door state back and count exactly one
      closing in between (below the counter's wrap point). */
  lemma {:induction false} TwoUplinks(p: SP.Payload, rd1: Readings, rd2: Readings)
    requires p.door.Some?
    requires p.doorCount.Some? && 0 <= p.doorCount.value.value < Int16MaxValue
    ensures UplinkUpdate(UplinkUpdate(p, rd1), rd2).door == p.door
    ensures UplinkUpdate(UplinkUpdate(p, rd1), rd2).doorCount.value.value == p.doorCount.value.value + 1
  {
    var q := UplinkUpdate(p, rd1);
    SP.NotNot(p.door.value);
    if q.door.value.value {
      SP.PlusOne(q.doorCount);
    } else {
      SP.PlusOne(p.doorCount);
    }
  }

  /** A fresh payload's first uplink opens the door and counts nothing. */
  lemma FirstUplink(rd: Readings)
    ensures UplinkUpdate(SP.Empty, rd).door == Some(SP.BoolValue(true))
    ensures UplinkUpdate(SP.Empty, rd).doorCount.None?
  {
  }

  /** The enqueued frame always leads with the header and the battery entry. */
  lemma {:induction false} UplinkFrame(p: SP.Payload, rd: Readings)
    ensures SP.Frame(UplinkUpdate(p, rd))[..4] == SP.Header + [0x01, rd.stripBattery as byte]
  {
    var q := UplinkUpdate(p, rd);
    var ps := SP.Properties(q);
    SP.FrameAt(ps, 0);
    assert ps[..0] == [];
  }
}
