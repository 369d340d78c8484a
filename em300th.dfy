/** The newer Milesight EM300-TH handlers (`lwnsim.Devices.Milesight`): the
    abstract `Em300th` claims names containing "EM300-TH" in any case and
    refreshes all three readings and its uplink counter on every uplink
    request; `Em300Th_Oat` additionally needs "OAT" in the name (ordinal),
    replaces the temperature with the outdoor curve and enqueues the frame
    bytes; `Em300Th_Rot` needs "ROT" and enqueues itself.

    The readings are sine curves over the wall-clock seconds; the model
    takes the results of the encoder's casts (`Readings.em*`,
    `Readings.oatTemperatureTenths`) as inputs. */
module Milesight {

  import opened Wrappers
  import opened Bytes
  import opened Text
  import opened DeviceValues
  import EP = Em300Payload

  /** The model name, the outdoor marker and the rotation marker a
      device name is checked for. */
  const ModelName: string := "EM300-TH"
  const OatMarker: string := "OAT"
  const RotMarker: string := "ROT"

  /** `Em300th.CanHandleDeviceResponse`: the model name, ignoring case. */
  function CanHandleEm300(name: string): (b: bool)
    ensures b <==> Contains(ToLower(name), "em300-th")
    ensures b ==> |name| >= 8
  {
    assert ToLower(ModelName) == "em300-th";
    var b := ContainsIgnoreCase(name, ModelName);
    if b then ContainsLength(ToLower(name), "em300-th"); b else b
  }

  /** `Em300Th_Oat.CanHandleDeviceResponse`: the base test and an ordinal "OAT". */
  function CanHandleOat(name: string): (b: bool)
    ensures b <==> CanHandleEm300(name) && exists i :: OccursAt(name, OatMarker, i)
  {
    ContainsAt(name, OatMarker);
    CanHandleEm300(name) && Contains(name, OatMarker)
  }

  /** `Em300Th_Rot.CanHandleDeviceResponse`: the base test and an ordinal "ROT". */
  function CanHandleRot(name: string): (b: bool)
    ensures b <==> CanHandleEm300(name) && exists i :: OccursAt(name, RotMarker, i)
  {
    ContainsAt(name, RotMarker);
    CanHandleEm300(name) && Contains(name, RotMarker)
  }

  /** The readings `Em300th.ProcessAsync(ReceiveUplink)` writes: all three
      present, whatever the payload held before. */
  function Refreshed(rd: Readings): (p: EP.Payload)
    ensures p.battery.Some? && p.temperatureTenths.Some? && p.humidityHalves.Some?
    ensures |EP.Frame(p)| == 10
  {
    EP.Payload(Some(rd.emBattery), Some(rd.emTemperatureTenths), Some(rd.emHumidityHalves))
  }

  /** The payload `Em300Th_Oat` sends: the refreshed readings with the
      outdoor temperature. */
  function OatPayload(rd: Readings): (p: EP.Payload)
    ensures p.temperatureTenths == Some(rd.oatTemperatureTenths)
    ensures p.(temperatureTenths := Refreshed(rd).temperatureTenths) == Refreshed(rd)
  {
    Refreshed(rd).(temperatureTenths := Some(rd.oatTemperatureTenths))
  }

  /** `_uplinkCounter` as an `int` (0 when the field is unset). */
  function Counter(v: Value): int32 {
    if v.IntV? && -0x8000_0000 <= v.i < 0x8000_0000 then v.i else 0
  }

  /** `Em300th.ProcessAsync(ReceiveUplink)`: the readings and the
      incremented (wrapping) counter are written; a null `_instance` raises
      `NullReferenceException` before anything changes. */
  method ProcessUplinkBase(device: SimDevice, rd: Readings) returns (fault: Option<Fault>)
    requires (device.dtype == Em300ThOat || device.dtype == Em300ThRot) && device.Valid()
    modifies device
    ensures old(device.fields)[InstanceField].Null? ==> fault == Some(NullReferenceException) && device.fields == old(device.fields)
    ensures !old(device.fields)[InstanceField].Null? ==>
              fault.None?
              && device.fields == old(device.fields)[InstanceField := Em300PayloadV(Refreshed(rd))]
                                                    [UplinkCounterField := IntV(WrapInt32(Counter(old(device.fields)[UplinkCounterField]) + 1))]
    ensures device.Valid()
  {
    var v := device.fields[InstanceField];
    if v.Null? {
      return Some(NullReferenceException);
    }
    var instance := Refresh(v.ep, rd);
    device.fields := device.fields[InstanceField := Em300PayloadV(instance)];
    var counter: int := Counter(device.fields[UplinkCounterField]);
    UplinkKeepsWellFormed(device.dtype, old(device.fields), instance, WrapInt32(counter + 1));
    device.fields := device.fields[UplinkCounterField := IntV(WrapInt32(counter + 1))];
    fault := None;
  }

  /** A new payload and counter keep an EM300 variant's fields well-formed. */
  lemma UplinkKeepsWellFormed(t: HandlerType, f: Bag, p: EP.Payload, counter: int32)
    requires (t == Em300ThOat || t == Em300ThRot) && WellFormed(t, f)
    ensures WellFormed(t, f[InstanceField := Em300PayloadV(p)])
    ensures WellFormed(t, f[InstanceField := Em300PayloadV(p)][UplinkCounterField := IntV(counter)])
  {
    WellFormedUpdate(t, f, InstanceField, Em300PayloadV(p));
    WellFormedUpdate(t, f[InstanceField := Em300PayloadV(p)], UplinkCounterField, IntV(counter));
  }

  /** The three property assignments of `Em300th.ProcessAsync(ReceiveUplink)`. */
  method Refresh(p: EP.Payload, rd: Readings) returns (instance: EP.Payload)
    ensures instance == Refreshed(rd)
  {
    instance := p;
    instance := instance.(battery := Some(rd.emBattery));
    instance := instance.(temperatureTenths := Some(rd.emTemperatureTenths));
    instance := instance.(humidityHalves := Some(rd.emHumidityHalves));
  }

  /** `Em300Th_Oat.ProcessAsync(ReceiveUplink)`: the base step, then the
      outdoor temperature, then the encoded frame under the device id. */
  method ProcessUplinkOat(device: SimDevice, rd: Readings) returns (fault: Option<Fault>, emits: seq<Emit>)
    requires device.dtype == Em300ThOat && device.Valid()
    modifies device
    ensures old(device.fields)[InstanceField].Null? ==>
              fault == Some(NullReferenceException) && emits == [] && device.fields == old(device.fields)
    ensures !old(device.fields)[InstanceField].Null? ==>
              fault.None?
              && device.fields == old(device.fields)[InstanceField := Em300PayloadV(OatPayload(rd))]
                                                    [UplinkCounterField := IntV(WrapInt32(Counter(old(device.fields)[UplinkCounterField]) + 1))]
              && emits == [Enqueued(device.Id(), EP.Frame(OatPayload(rd)))]
    ensures device.Valid()
  {
    emits := [];
    fault := ProcessUplinkBase(device, rd);
    if fault == Some(NullReferenceException) {
      return;
    }
    var instance := device.fields[InstanceField].ep;
    instance := instance.(temperatureTenths := Some(rd.oatTemperatureTenths));
    assert instance == OatPayload(rd);
    ghost var counter := WrapInt32(Counter(old(device.fields)[UplinkCounterField]) + 1);
    UplinkKeepsWellFormed(device.dtype, old(device.fields), instance, counter);
    assert device.fields[InstanceField := Em300PayloadV(instance)]
           == old(device.fields)[InstanceField := Em300PayloadV(instance)][UplinkCounterField := IntV(counter)];
    device.fields := device.fields[InstanceField := Em300PayloadV(instance)];
    var frame := EP.Encode(instance);
    emits := [Enqueued(device.Id(), frame)];
  }

  /** `Em300Th_Rot.ProcessAsync(ReceiveUplink)`: the base step, then the
      device itself is enqueued, which sends its encoded frame. */
  method ProcessUplinkRot(device: SimDevice, rd: Readings) returns (fault: Option<Fault>, emits: seq<Emit>)
    requires device.dtype == Em300ThRot && device.Valid()
    modifies device
    ensures old(device.fields)[InstanceField].Null? ==>
              fault == Some(NullReferenceException) && emits == [] && device.fields == old(device.fields)
    ensures !old(device.fields)[InstanceField].Null? ==>
              fault.None?
              && device.fields == old(device.fields)[InstanceField := Em300PayloadV(Refreshed(rd))]
                                                    [UplinkCounterField := IntV(WrapInt32(Counter(old(device.fields)[UplinkCounterField]) + 1))]
              && emits == [Enqueued(device.Id(), EP.Frame(Refreshed(rd)))]
    ensures device.Valid()
  {
    emits := [];
    fault := ProcessUplinkBase(device, rd);
    if fault == Some(NullReferenceException) {
      return;
    }
    var frame := EP.Encode(device.fields[InstanceField].ep);
    emits := [Enqueued(device.Id(), frame)];
  }

  /** The counter counts uplinks and wraps from `int.MaxValue` to
      `int.MinValue`. */
  lemma CounterStep(n: int32)
    ensures n < 0x7FFF_FFFF ==> Counter(IntV(WrapInt32(n + 1))) == n + 1
    ensures n == 0x7FFF_FFFF ==> Counter(IntV(WrapInt32(n + 1))) == -0x8000_0000
  {
  }

  /** The OAT frame carries the outdoor temperature little-endian in bytes
      5 and 6, between the battery and the humidity sections. */
  lemma {:induction false} OatFrame(rd: Readings)
    ensures EP.Frame(OatPayload(rd))
            == [0x01, 0x75, rd.emBattery, 0x03, 0x67] + Int16LittleEndian(rd.oatTemperatureTenths)
               + [0x04, 0x68, rd.emHumidityHalves]
    ensures EP.Decode(EP.Frame(OatPayload(rd))) == Some(OatPayload(rd))
  {
    EP.FrameRoundTrip(OatPayload(rd));
  }

  /** Containment of "OAT" and "ROT" is ordinal while that of "EM300-TH"
      ignores case: a name without upper-case letters is claimed by neither
      variant. */
  lemma LowerCaseNames(name: string)
    requires forall i :: 0 <= i < |name| ==> !('A' <= name[i] <= 'Z')
    ensures !CanHandleOat(name) && !CanHandleRot(name)
  {
    NoUpperCase(name, OatMarker);
    NoUpperCase(name, RotMarker);
  }

  /** A string without upper-case letters contains no string that starts
      with one. */
  lemma NoUpperCase(s: string, sub: string)
    requires forall i :: 0 <= i < |s| ==> !('A' <= s[i] <= 'Z')
    requires |sub| > 0 && 'A' <= sub[0] <= 'Z'
    ensures !Contains(s, sub)
  {
    forall i | 0 <= i <= |s| - |sub|
      ensures !OccursAt(s, sub, i)
    {
      assert s[i..i + |sub|][0] == s[i];
    }
    ContainsAt(s, sub);
  }
}
