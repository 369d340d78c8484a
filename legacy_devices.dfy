/** The older handlers (`lwnsim.Devices.SensativeStrip` and
    `lwnsim.Devices.Em300th`), which the older factory drives with the
    device's bag alongside every event.

    The strip waits for the simulator's console to report a sent uplink:
    that sets `_uplinkReceived` and advances `_currentState` exactly as the
    newer strip advances its payload on an uplink request. The next device
    descriptor with a strip name then clears the flag and sends the hex text
    of the encoded state. `Em300th` only clears the flag on every descriptor.

    The strip's nested payload class is the same encoder as
    `lwnsim.Devices.Sensative.SensativePayload` and is modelled by it. */
module Legacy {

  import opened Wrappers
  import opened Bytes
  import opened Text
  import opened DeviceValues
  import Sensative
  import Handlers
  import SP = SensativePayload

  /** The console text that reports a sent uplink, matched ignoring case. */
  const UplinkSent: string := "Uplink sent"

  /** The events the older factory hands to every handler; a console
      message comes with what the clock and the generator give the strip. */
  datatype Event =
    | DescriptorEvent(d: Descriptor)
    | DownlinkEvent(downlink: ReceiveDownlink)
    | ConsoleEvent(message: ConsoleLog, rd: Readings)

  /** `_uplinkReceived`. */
  predicate UplinkReceived(f: Bag) {
    UplinkReceivedField in f && f[UplinkReceivedField] == BoolV(true)
  }

  /** `SensativeStrip.ProcessAsync(LwnDeviceResponse, data)`: only for a
      strip name and a pending uplink; the flag is cleared, then the state
      is encoded (a null state raises `NullReferenceException`) and sent as
      hex text under the device id. */
  function StripDescriptor(f: Bag, d: Descriptor): (r: Handlers.Step)
    requires WellFormed(LegacySensativeStrip, f)
    ensures WellFormed(LegacySensativeStrip, r.fields)
    ensures !Sensative.CanHandleDeviceResponse(d.name) || !UplinkReceived(f) ==> r == Handlers.Step(f, None, [])
    ensures Sensative.CanHandleDeviceResponse(d.name) && UplinkReceived(f) ==>
              r.fields == f[UplinkReceivedField := BoolV(false)] && !UplinkReceived(r.fields)
              && (f[CurrentStateField].Null? ==> r.fault == Some(NullReferenceException) && r.emits == [])
              && (!f[CurrentStateField].Null? ==>
                    r.fault.None? && r.emits == [SentUplink(d.id, ToHexString(SP.Frame(f[CurrentStateField].sp)))])
  {
    if !Sensative.CanHandleDeviceResponse(d.name) || !UplinkReceived(f) then Handlers.Step(f, None, [])
    else
      var g := f[UplinkReceivedField := BoolV(false)];
      WellFormedUpdate(LegacySensativeStrip, f, UplinkReceivedField, BoolV(false));
      match f[CurrentStateField]
      case StripPayloadV(p) => Handlers.Step(g, None, [SentUplink(d.id, ToHexString(SP.Frame(p)))])
      case _ => Handlers.Step(g, Some(NullReferenceException), [])
  }

  /** `SensativeStrip.ProcessAsync(ConsoleLog, data)`: for a strip name and
      a message reporting a sent uplink, the flag is set and the state
      advanced (a null state first replaced by a fresh one). */
  function StripConsole(f: Bag, m: ConsoleLog, rd: Readings): (g: Bag)
    requires WellFormed(LegacySensativeStrip, f)
    ensures WellFormed(LegacySensativeStrip, g)
    ensures !(Sensative.CanHandleDeviceResponse(m.name) && ContainsIgnoreCase(m.message, UplinkSent)) ==> g == f
    ensures Sensative.CanHandleDeviceResponse(m.name) && ContainsIgnoreCase(m.message, UplinkSent) ==>
              UplinkReceived(g)
              && g[CurrentStateField] == StripPayloadV(Sensative.UplinkUpdate(Sensative.Instance(f[CurrentStateField]), rd))
              && g == f[UplinkReceivedField := g[UplinkReceivedField]][CurrentStateField := g[CurrentStateField]]
  {
    if !Sensative.CanHandleDeviceResponse(m.name) || !ContainsIgnoreCase(m.message, UplinkSent) then f
    else
      var state := Sensative.UplinkUpdate(Sensative.Instance(f[CurrentStateField]), rd);
      WellFormedUpdate(LegacySensativeStrip, f, UplinkReceivedField, BoolV(true));
      WellFormedUpdate(LegacySensativeStrip, f[UplinkReceivedField := BoolV(true)], CurrentStateField, StripPayloadV(state));
      f[UplinkReceivedField := BoolV(true)][CurrentStateField := StripPayloadV(state)]
  }

  /** `Em300th.ProcessAsync(LwnDeviceResponse)`: a pending uplink flag is
      cleared, whatever the device. The source declares it as a one-argument
      override the base lacks; it is taken here as the handler's step on the
      two-argument descriptor call. */
  function Em300Descriptor(f: Bag): (g: Bag)
    requires WellFormed(LegacyEm300th, f)
    ensures WellFormed(LegacyEm300th, g) && !UplinkReceived(g)
    ensures forall n :: n in f && n != UplinkReceivedField ==> g[n] == f[n]
  {
    if !UplinkReceived(f) then f
    else
      WellFormedUpdate(LegacyEm300th, f, UplinkReceivedField, BoolV(false));
      f[UplinkReceivedField := BoolV(false)]
  }

  /** `Em300th.CanHandle`: the name contains "sensative", ignoring case, as
      the source has it. No factory calls it. */
  function Em300CanHandle(name: string): (b: bool)
    ensures b <==> Sensative.CanHandleDeviceResponse(name)
    ensures b <==> Contains(ToLower(name), "sensative")
  {
    ContainsIgnoreCase(name, Sensative.Keyword)
  }

  /** The step a handler of type `t` takes on an event; the overloads no
      handler overrides complete without effect. */
  function OnEvent(t: LegacyHandler, f: Bag, e: Event): (r: Handlers.Step)
    requires WellFormed(t, f)
    ensures WellFormed(t, r.fields) && r.fields.Keys == f.Keys
    ensures forall n :: n in f && n != UplinkReceivedField && n != CurrentStateField ==> r.fields[n] == f[n]
    ensures !e.DescriptorEvent? ==> r.fault.None? && r.emits == []
    ensures t == LegacyEm300th ==> r.fault.None? && r.emits == []
  {
    match e
    case DescriptorEvent(d) =>
      if t == LegacySensativeStrip then StripDescriptor(f, d) else Handlers.Step(Em300Descriptor(f), None, [])
    case DownlinkEvent(_) => Handlers.Step(f, None, [])
    case ConsoleEvent(m, rd) =>
      if t == LegacySensativeStrip then Handlers.Step(StripConsole(f, m, rd), None, []) else Handlers.Step(f, None, [])
  }

  /** `simuDevice.ProcessAsync(event, data)` through the virtual call, with
      `Em300th`'s descriptor body taken as its descriptor step. */
  method ProcessEvent(device: SimDevice, e: Event) returns (fault: Option<Fault>, emits: seq<Emit>)
    requires !IsNewSimuDevice(device.dtype) && device.Valid()
    modifies device
    ensures Handlers.Step(device.fields, fault, emits) == OnEvent(device.dtype, old(device.fields), e)
    ensures device.Valid()
  {
    fault, emits := None, [];
    match e
    case DescriptorEvent(d) =>
      if device.dtype == LegacySensativeStrip {
        fault, emits := StripProcessDescriptor(device, d);
      } else {
        Em300ProcessDescriptor(device);
      }
    case DownlinkEvent(_) =>
    case ConsoleEvent(m, rd) =>
      if device.dtype == LegacySensativeStrip {
        StripProcessConsole(device, m, rd);
      }
  }

  /** `SensativeStrip.ProcessAsync(LwnDeviceResponse, data)`, step by step. */
  method StripProcessDescriptor(device: SimDevice, d: Descriptor) returns (fault: Option<Fault>, emits: seq<Emit>)
    requires device.dtype == LegacySensativeStrip && device.Valid()
    modifies device
    ensures Handlers.Step(device.fields, fault, emits) == StripDescriptor(old(device.fields), d)
    ensures device.Valid()
  {
    fault, emits := None, [];
    if !ContainsIgnoreCase(d.name, Sensative.Keyword) {
      return;
    }
    if !device.fields[UplinkReceivedField].b {
      return;
    }
    WellFormedUpdate(device.dtype, device.fields, UplinkReceivedField, BoolV(false));
    device.fields := device.fields[UplinkReceivedField := BoolV(false)];
    var state := device.fields[CurrentStateField];
    if state.Null? {
      return Some(NullReferenceException), [];
    }
    var frame := SP.Encode(state.sp);
    emits := [SentUplink(d.id, ToHexString(frame))];
  }

  /** `SensativeStrip.ProcessAsync(ConsoleLog, data)`, step by step. */
  method StripProcessConsole(device: SimDevice, m: ConsoleLog, rd: Readings)
    requires device.dtype == LegacySensativeStrip && device.Valid()
    modifies device
    ensures device.fields == StripConsole(old(device.fields), m, rd)
    ensures device.Valid()
  {
    if !ContainsIgnoreCase(m.name, Sensative.Keyword) {
      return;
    }
    if ContainsIgnoreCase(m.message, UplinkSent) {
      WellFormedUpdate(device.dtype, device.fields, UplinkReceivedField, BoolV(true));
      device.fields := device.fields[UplinkReceivedField := BoolV(true)];
      var state := Sensative.Advance(Sensative.Instance(device.fields[CurrentStateField]), rd);
      WellFormedUpdate(device.dtype, device.fields, CurrentStateField, StripPayloadV(state));
      device.fields := device.fields[CurrentStateField := StripPayloadV(state)];
    }
  }

  /** `Em300th.ProcessAsync(LwnDeviceResponse)`, step by step. */
  method Em300ProcessDescriptor(device: SimDevice)
    requires device.dtype == LegacyEm300th && device.Valid()
    modifies device
    ensures device.fields == Em300Descriptor(old(device.fields))
    ensures device.Valid()
  {
    if !device.fields[UplinkReceivedField].b {
      return;
    }
    WellFormedUpdate(device.dtype, device.fields, UplinkReceivedField, BoolV(false));
    device.fields := device.fields[UplinkReceivedField := BoolV(false)];
  }

  /** `Em300th`'s step, in closed form: the flag cleared by a descriptor,
      whatever its name, and kept by every other event. */
  lemma Em300Step(f: Bag, e: Event)
    ensures WellFormed(LegacyEm300th, f) ==>
            OnEvent(LegacyEm300th, f, e)
            == Handlers.Step(f[UplinkReceivedField := BoolV(!e.DescriptorEvent? && UplinkReceived(f))], None, [])
  {
    if WellFormed(LegacyEm300th, f) {
      assert Fits(LegacyEm300th, UplinkReceivedField, f[UplinkReceivedField]);
    }
  }

  /** The strip's step on a console message reporting a sent uplink for a
      strip name: the flag raised, the state advanced. */
  lemma StripConsoleStep(f: Bag, m: ConsoleLog, rd: Readings)
    ensures WellFormed(LegacySensativeStrip, f)
            && Sensative.CanHandleDeviceResponse(m.name) && ContainsIgnoreCase(m.message, UplinkSent) ==>
            OnEvent(LegacySensativeStrip, f, ConsoleEvent(m, rd))
            == Handlers.Step(f[UplinkReceivedField := BoolV(true)]
                              [CurrentStateField := StripPayloadV(Sensative.UplinkUpdate(Sensative.Instance(f[CurrentStateField]), rd))],
                             None, [])
  {
  }

  /** The strip's step on a descriptor: a strip name clears the flag, and
      the hex text of the state goes out only when the flag was raised and
      the state is not null. */
  lemma StripDescriptorStep(f: Bag, d: Descriptor)
    ensures WellFormed(LegacySensativeStrip, f) ==>
            var s := OnEvent(LegacySensativeStrip, f, DescriptorEvent(d));
            (s.fields, s.emits)
            == (if Sensative.CanHandleDeviceResponse(d.name) then f[UplinkReceivedField := BoolV(false)] else f,
                if Sensative.CanHandleDeviceResponse(d.name) && UplinkReceived(f) && f[CurrentStateField].StripPayloadV?
                then [SentUplink(d.id, ToHexString(SP.Frame(f[CurrentStateField].sp)))] else [])
  {
    if WellFormed(LegacySensativeStrip, f) {
      assert Fits(LegacySensativeStrip, UplinkReceivedField, f[UplinkReceivedField]);
      var s := OnEvent(LegacySensativeStrip, f, DescriptorEvent(d));
      assert s.fields == if Sensative.CanHandleDeviceResponse(d.name) then f[UplinkReceivedField := BoolV(false)] else f;
      assert s.emits == if Sensative.CanHandleDeviceResponse(d.name) && UplinkReceived(f) && f[CurrentStateField].StripPayloadV?
                        then [SentUplink(d.id, ToHexString(SP.Frame(f[CurrentStateField].sp)))] else [];
    }
  }

  /** The strip's step on a downlink, or on a console message that does
      not report a sent uplink for a strip name, changes nothing. */
  lemma StripQuietStep(f: Bag, e: Event)
    ensures WellFormed(LegacySensativeStrip, f)
            && (e.DownlinkEvent?
                || (e.ConsoleEvent?
                    && !(Sensative.CanHandleDeviceResponse(e.message.name) && ContainsIgnoreCase(e.message.message, UplinkSent)))) ==>
            OnEvent(LegacySensativeStrip, f, e) == Handlers.Step(f, None, [])
  {
  }

  /** A reported uplink is sent once: the console message arms the strip,
      the next descriptor sends the hex text of the advanced state, whose
      bytes decode back to its frame, and a second descriptor sends
      nothing. */
  lemma {:induction false} StripSendsOnce(f: Bag, m: ConsoleLog, rd: Readings, d1: Descriptor, d2: Descriptor)
    requires WellFormed(LegacySensativeStrip, f)
    requires Sensative.CanHandleDeviceResponse(m.name) && ContainsIgnoreCase(m.message, UplinkSent)
    requires Sensative.CanHandleDeviceResponse(d1.name)
    ensures var state := Sensative.UplinkUpdate(Sensative.Instance(f[CurrentStateField]), rd);
            var s1 := StripDescriptor(StripConsole(f, m, rd), d1);
            s1.fault.None? && s1.emits == [SentUplink(d1.id, ToHexString(SP.Frame(state)))]
            && FromHexString(s1.emits[0].payload) == Some(SP.Frame(state))
            && StripDescriptor(s1.fields, d2).emits == []
  {
    var state := Sensative.UplinkUpdate(Sensative.Instance(f[CurrentStateField]), rd);
    HexRoundTrip(SP.Frame(state));
  }

  /** Without a reported uplink a descriptor sends nothing and changes
      nothing, whatever the name. */
  lemma StripWaitsForUplink(f: Bag, d: Descriptor)
    requires WellFormed(LegacySensativeStrip, f) && !UplinkReceived(f)
    ensures StripDescriptor(f, d) == Handlers.Step(f, None, [])
  {
  }

  /** The EM300 handler claims exactly the names the strip claims,
      "sensative" ones, and so never a name that holds only its own model
      name. */
  lemma Em300ClaimsStripNames(name: string)
    ensures Em300CanHandle(name) <==> Sensative.CanHandleDeviceResponse(name)
    ensures !Em300CanHandle("EM300-TH")
  {
    assert ToLower("EM300-TH") == "em300-th";
    ShorterContainsNot(ToLower("EM300-TH"), ToLower(Sensative.Keyword));
  }

  /** A string shorter than `sub` does not contain it. */
  lemma {:induction false} ShorterContainsNot(s: string, sub: string)
    requires |s| < |sub|
    ensures !Contains(s, sub)
    decreases |s|
  {
    if |s| > 0 {
      ShorterContainsNot(s[1..], sub);
    }
  }
}
