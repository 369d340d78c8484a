/** Virtual dispatch over the newer handlers: `CanHandle()` is assumed to
    run the concrete type's `CanHandleDeviceResponse` (the base as given
    declares neither), and `ProcessAsync(ReceiveUplink)` runs the concrete
    type's override. The other `ProcessAsync` overloads (descriptor,
    downlink, console message) are not overridden by any newer handler and
    complete without effect, and the parameterless tick, which no type
    declares, is assumed to do the same. */
module Handlers {

  import opened Wrappers
  import opened Bytes
  import opened Text
  import opened DeviceValues
  import Sensative
  import Milesight
  import SP = SensativePayload
  import EP = Em300Payload

  /** `CanHandle()` of a handler whose `Name` is `name`: the strip claims
      "sensative" names, the two EM300 variants "EM300-TH" names with their
      marker, both ignoring case in the model name. */
  function CanHandle(t: NewHandler, name: string): (b: bool)
    ensures t == SensativeStrip ==> (b <==> Sensative.CanHandleDeviceResponse(name))
    ensures t == Em300ThOat ==> (b <==> Milesight.CanHandleOat(name))
    ensures t == Em300ThRot ==> (b <==> Milesight.CanHandleRot(name))
    ensures b ==> Contains(ToLower(name), "sensative") || Contains(ToLower(name), "em300-th")
  {
    if t == SensativeStrip then Sensative.CanHandleDeviceResponse(name)
    else if t == Em300ThOat then Milesight.CanHandleOat(name)
    else Milesight.CanHandleRot(name)
  }

  /** The fields after a handler step, the exception it raised, and what it
      handed to the connection service. */
  datatype Step = Step(fields: Bag, fault: Option<Fault>, emits: seq<Emit>)

  /** The effect of `ProcessAsync(ReceiveUplink)` on a handler of type `t`
      with fields `f`. */
  function Uplink(t: NewHandler, f: Bag, rd: Readings): (r: Step)
    requires f.Keys == Layout(t)
    ensures r.fields.Keys == f.Keys && IdOf(r.fields) == IdOf(f) && NameOf(r.fields) == NameOf(f)
    ensures r.fault.None? ==> |r.emits| == 1 && r.emits[0].Enqueued? && r.emits[0].id == IdOf(f)
    ensures r.fault.Some? ==> r.fault == Some(NullReferenceException) && r.fields == f && r.emits == []
    ensures t == SensativeStrip ==> r.fault.None?
  {
    if t == SensativeStrip then
      var q := Sensative.UplinkUpdate(Sensative.Instance(f[InstanceField]), rd);
      Step(f[InstanceField := StripPayloadV(q)], None, [Enqueued(IdOf(f), SP.Frame(q))])
    else if f[InstanceField].Null? then
      Step(f, Some(NullReferenceException), [])
    else
      var p := if t == Em300ThOat then Milesight.OatPayload(rd) else Milesight.Refreshed(rd);
      var counter := IntV(WrapInt32(Milesight.Counter(f[UplinkCounterField]) + 1));
      Step(f[InstanceField := Em300PayloadV(p)][UplinkCounterField := counter], None, [Enqueued(IdOf(f), EP.Frame(p))])
  }

  /** `device.ProcessAsync(ReceiveUplink)` through the virtual call. */
  method ProcessUplink(device: SimDevice, rd: Readings) returns (fault: Option<Fault>, emits: seq<Emit>)
    requires IsNewSimuDevice(device.dtype) && device.Valid()
    modifies device
    ensures Step(device.fields, fault, emits) == Uplink(device.dtype, old(device.fields), rd)
    ensures device.Valid()
  {
    if device.dtype == SensativeStrip {
      emits := Sensative.ProcessUplink(device, rd);
      fault := None;
    } else if device.dtype == Em300ThOat {
      fault, emits := Milesight.ProcessUplinkOat(device, rd);
    } else {
      fault, emits := Milesight.ProcessUplinkRot(device, rd);
    }
  }
}
