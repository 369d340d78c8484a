/** What .NET reflection sees of the device handlers of both client
    generations, made explicit: the handler types and their base types, the
    instance fields each `Type.GetFields(Instance | NonPublic)` call reports
    (with the readonly mark), the initial field values of a freshly
    constructed handler, the values a state bag can hold, and the events and
    outbound messages the handlers exchange.

    The newer generation (namespace `lwnsim.Devices.Interfaces` and below)
    derives from a `SimDeviceBase` that, as given, declares no `Id` or
    `Name`; it is assumed to give every handler the auto-properties `Id` (an `int`) and
    `Name` (a `string`), whose compiler-generated backing fields are the
    names the state store uses as keys. */
module DeviceValues {

  import opened Wrappers
  import opened Bytes
  import SensativePayload
  import Em300Payload

  /** The keys of a state bag: the `$type` entry of the newer store and
      the instance field names reflection reports; `KeyText` gives each its
      name. */
  datatype Key =
    | TypeKey
    | IdField
    | NameField
    | LoggerField
    | ConnectionServiceField
    | RandomField
    | InstanceField
    | UplinkCounterField
    | CurrentStateField
    | UplinkReceivedField

  function KeyText(k: Key): string {
    match k
    case TypeKey => "$type"
    case IdField => "<Id>k__BackingField"
    case NameField => "<Name>k__BackingField"
    case LoggerField => "_logger"
    case ConnectionServiceField => "_connectionService"
    case RandomField => "_random"
    case InstanceField => "_instance"
    case UplinkCounterField => "_uplinkCounter"
    case CurrentStateField => "_currentState"
    case UplinkReceivedField => "_uplinkReceived"
  }

  datatype DeviceType =
    | SimDeviceBase           // lwnsim.Devices.Interfaces.SimDeviceBase (abstract)
    | SensativeStrip          // lwnsim.Devices.Sensative.SensativeStrip
    | Em300th                 // lwnsim.Devices.Milesight.Em300th (abstract)
    | Em300ThOat              // lwnsim.Devices.Milesight.Em300Th_Oat
    | Em300ThRot              // lwnsim.Devices.Milesight.Em300Th_Rot
    | LegacySimDeviceBase     // lwnsim.Devices.SimDeviceBase (abstract)
    | LegacySensativeStrip    // lwnsim.Devices.SensativeStrip
    | LegacyEm300th           // lwnsim.Devices.Em300th

  predicate IsAbstract(t: DeviceType) {
    t == SimDeviceBase || t == Em300th || t == LegacySimDeviceBase
  }

  /** Assignable to the newer `lwnsim.Devices.Interfaces.ISimuDevice`. */
  predicate IsNewSimuDevice(t: DeviceType) {
    t == SimDeviceBase || t == SensativeStrip || t == Em300th || t == Em300ThOat || t == Em300ThRot
  }

  /** `Type.BaseType`, with `None` for `System.Object`. */
  function BaseType(t: DeviceType): (b: Option<DeviceType>)
    ensures b.Some? ==> Depth(b.value) < Depth(t)
    ensures b.Some? ==> (IsNewSimuDevice(b.value) <==> IsNewSimuDevice(t))
  {
    match t
    case SimDeviceBase => None
    case SensativeStrip => Some(SimDeviceBase)
    case Em300th => Some(SimDeviceBase)
    case Em300ThOat => Some(Em300th)
    case Em300ThRot => Some(Em300th)
    case LegacySimDeviceBase => None
    case LegacySensativeStrip => Some(LegacySimDeviceBase)
    case LegacyEm300th => Some(LegacySimDeviceBase)
  }

  /** Distance from `System.Object`, minus one. */
  function Depth(t: DeviceType): nat {
    match t
    case SimDeviceBase => 0
    case LegacySimDeviceBase => 0
    case Em300ThOat => 2
    case Em300ThRot => 2
    case _ => 1
  }

  /** A type the container can instantiate. */
  type HandlerType = t: DeviceType | !IsAbstract(t) witness SensativeStrip

  /** A handler of the newer generation. */
  type NewHandler = t: HandlerType | IsNewSimuDevice(t) witness SensativeStrip

  /** A handler of the older generation. */
  type LegacyHandler = t: HandlerType | !IsNewSimuDevice(t) witness LegacySensativeStrip

  datatype FieldDecl = FieldDecl(name: Key, readonly: bool)

  /** The three injected services every handler keeps in readonly fields. */
  const ServiceFields: seq<FieldDecl> :=
    [FieldDecl(LoggerField, true), FieldDecl(ConnectionServiceField, true), FieldDecl(RandomField, true)]

  /** What `t.GetFields(BindingFlags.Instance | BindingFlags.NonPublic)`
      reports: the fields `t` declares, and the non-private fields it
      inherits. `Em300th` declares its fields `internal`, so its subtypes
      report them too; the backing fields of `SimDeviceBase` are private to
      it. */
  function ReportedFields(t: DeviceType): seq<FieldDecl> {
    var em300th := ServiceFields + [FieldDecl(UplinkCounterField, false), FieldDecl(InstanceField, false)];
    match t
    case SimDeviceBase => [FieldDecl(IdField, false), FieldDecl(NameField, false)]
    case SensativeStrip => ServiceFields + [FieldDecl(InstanceField, false)]
    case Em300th => em300th
    case Em300ThOat => em300th
    case Em300ThRot => em300th
    case LegacySimDeviceBase => []
    case LegacySensativeStrip => ServiceFields + [FieldDecl(CurrentStateField, false), FieldDecl(UplinkReceivedField, false)]
    case LegacyEm300th => ServiceFields + [FieldDecl(UplinkReceivedField, false)]
  }

  /** The names of a field list. */
  function Names(fs: seq<FieldDecl>): set<Key> {
    if fs == [] then {} else {fs[0].name} + Names(fs[1..])
  }

  /** Every field an instance of `t` holds: those of `t` and of all its
      base types. */
  function InstanceFieldNames(t: DeviceType): set<Key>
    decreases Depth(t)
  {
    Names(ReportedFields(t)) + (if BaseType(t).Some? then InstanceFieldNames(BaseType(t).value) else {})
  }

  /** The fields an instance of each handler type holds. */
  function Layout(t: HandlerType): set<Key> {
    var services := {LoggerField, ConnectionServiceField, RandomField};
    match t
    case SensativeStrip => {IdField, NameField, InstanceField} + services
    case Em300ThOat => {IdField, NameField, UplinkCounterField, InstanceField} + services
    case Em300ThRot => {IdField, NameField, UplinkCounterField, InstanceField} + services
    case LegacySensativeStrip => {CurrentStateField, UplinkReceivedField} + services
    case LegacyEm300th => {UplinkReceivedField} + services
  }

  /** The fields reflection reports along the base-type chain are exactly
      the instance layout. */
  lemma LayoutMatchesReflection(t: HandlerType)
    ensures InstanceFieldNames(t) == Layout(t)
  {
    match t
    case SensativeStrip => StripReflection();
    case Em300ThOat => Em300Reflection(t);
    case Em300ThRot => Em300Reflection(t);
    case LegacySensativeStrip => LegacyReflection(t);
    case LegacyEm300th => LegacyReflection(t);
  }

  lemma StripReflection()
    ensures InstanceFieldNames(SensativeStrip) == Layout(SensativeStrip)
  {
    var own := [FieldDecl(InstanceField, false)];
    NamesOf2(ReportedFields(SimDeviceBase));
    LevelNames(SensativeStrip, own);
    NamesOf1(own);
  }

  lemma Em300Reflection(t: HandlerType)
    requires t == Em300ThOat || t == Em300ThRot
    ensures InstanceFieldNames(t) == Layout(t)
  {
    var own := [FieldDecl(UplinkCounterField, false), FieldDecl(InstanceField, false)];
    NamesOf2(ReportedFields(SimDeviceBase));
    LevelNames(Em300th, own);
    NamesOf2(own);
    assert ReportedFields(t) == ReportedFields(Em300th);
  }

  lemma LegacyReflection(t: HandlerType)
    requires t == LegacySensativeStrip || t == LegacyEm300th
    ensures InstanceFieldNames(t) == Layout(t)
  {
    if t == LegacySensativeStrip {
      LegacyStripReflection();
    } else {
      LegacyEm300Reflection();
    }
  }

  lemma LegacyStripReflection()
    ensures InstanceFieldNames(LegacySensativeStrip) == Layout(LegacySensativeStrip)
  {
    var own := [FieldDecl(CurrentStateField, false), FieldDecl(UplinkReceivedField, false)];
    LevelNames(LegacySensativeStrip, own);
    NamesOf2(own);
  }

  lemma LegacyEm300Reflection()
    ensures InstanceFieldNames(LegacyEm300th) == Layout(LegacyEm300th)
  {
    var own := [FieldDecl(UplinkReceivedField, false)];
    LevelNames(LegacyEm300th, own);
    NamesOf1(own);
  }

  /** The names one level reports: the services and its own fields. */
  lemma LevelNames(t: DeviceType, own: seq<FieldDecl>)
    requires ReportedFields(t) == ServiceFields + own
    ensures Names(ReportedFields(t)) == {LoggerField, ConnectionServiceField, RandomField} + Names(own)
  {
    NamesOf3(ServiceFields);
    NamesConcat(ServiceFields, own);
  }

  /** The names of a concatenation are the names of its parts. */
  lemma {:induction false} NamesConcat(a: seq<FieldDecl>, b: seq<FieldDecl>)
    ensures Names(a + b) == Names(a) + Names(b)
  {
    if a == [] {
      assert a + b == b;
    } else {
      assert (a + b)[0] == a[0];
      assert (a + b)[1..] == a[1..] + b;
      NamesConcat(a[1..], b);
    }
  }

  lemma NamesOf1(fs: seq<FieldDecl>)
    requires |fs| == 1
    ensures Names(fs) == {fs[0].name}
  {
    assert fs[1..] == [];
  }

  lemma NamesOf2(fs: seq<FieldDecl>)
    requires |fs| == 2
    ensures Names(fs) == {fs[0].name, fs[1].name}
  {
    NamesOf1(fs[1..]);
  }

  lemma NamesOf3(fs: seq<FieldDecl>)
    requires |fs| == 3
    ensures Names(fs) == {fs[0].name, fs[1].name, fs[2].name}
  {
    NamesOf2(fs[1..]);
  }

  /** A value a field or a state bag can hold. */
  datatype Value =
    | Null
    | IntV(i: int)
    | StrV(s: string)
    | BoolV(b: bool)
    | TypeV(t: HandlerType)
    | StripPayloadV(sp: SensativePayload.Payload)
    | Em300PayloadV(ep: Em300Payload.Payload)
    | ServiceV(service: Key)

  /** A per-device state bag: field (or key) name to value. */
  type Bag = map<Key, Value>

  /** The value a field of a fresh instance starts with (its initializer,
      or the default of its type). */
  function InitialValue(t: DeviceType, name: Key): Value {
    match name
    case LoggerField => ServiceV(name)
    case ConnectionServiceField => ServiceV(name)
    case RandomField => ServiceV(name)
    case IdField => IntV(0)
    case UplinkCounterField => IntV(0)
    case UplinkReceivedField => BoolV(false)
    case InstanceField =>
      if t == SensativeStrip then StripPayloadV(SensativePayload.Empty) else Em300PayloadV(Em300Payload.Empty)
    case CurrentStateField => StripPayloadV(SensativePayload.Empty)
    case _ => Null
  }

  /** What `FieldInfo.SetValue` stores when it is given `v` for the field
      `name` of `t`: `v` itself when it has the field's type, the type's
      default when `v` is null and the field holds a value type, and `None`
      (an `ArgumentException`) for a value of another type. */
  function Assign(t: DeviceType, name: Key, v: Value): (r: Option<Value>)
    ensures r.Some? && !v.Null? ==> r.value == v
    ensures r == Some(v) <==> Fits(t, name, v)
    ensures r.Some? ==> Fits(t, name, r.value)
  {
    match name
    case IdField => AssignInt(v)
    case UplinkCounterField => AssignInt(v)
    case UplinkReceivedField => if v.Null? then Some(BoolV(false)) else if v.BoolV? then Some(v) else None
    case NameField => if v.Null? || v.StrV? then Some(v) else None
    case InstanceField =>
      if v.Null? || (t == SensativeStrip && v.StripPayloadV?) || (t != SensativeStrip && v.Em300PayloadV?)
      then Some(v) else None
    case CurrentStateField => if v.Null? || v.StripPayloadV? then Some(v) else None
    case LoggerField => if v.Null? || v.ServiceV? then Some(v) else None
    case ConnectionServiceField => if v.Null? || v.ServiceV? then Some(v) else None
    case RandomField => if v.Null? || v.ServiceV? then Some(v) else None
    case TypeKey => None
  }

  /** `SetValue` on an `int` field. */
  function AssignInt(v: Value): (r: Option<Value>)
    ensures r.Some? && !v.Null? ==> r.value == v
  {
    if v.Null? then Some(IntV(0)) else if v.IntV? && -0x8000_0000 <= v.i < 0x8000_0000 then Some(v) else None
  }

  /** What `SetValue` stores is accepted again unchanged. */
  lemma AssignIdempotent(t: DeviceType, name: Key, v: Value)
    requires Assign(t, name, v).Some?
    ensures Assign(t, name, Assign(t, name, v).value) == Assign(t, name, v)
  {
  }

  /** `v` is a value the field `name` of `t` can hold: one of the field's
      type, or null for a field of reference type. */
  predicate Fits(t: DeviceType, name: Key, v: Value) {
    match name
    case IdField => v.IntV? && -0x8000_0000 <= v.i < 0x8000_0000
    case UplinkCounterField => v.IntV? && -0x8000_0000 <= v.i < 0x8000_0000
    case UplinkReceivedField => v.BoolV?
    case NameField => v.Null? || v.StrV?
    case InstanceField => v.Null? || (t == SensativeStrip && v.StripPayloadV?) || (t != SensativeStrip && v.Em300PayloadV?)
    case CurrentStateField => v.Null? || v.StripPayloadV?
    case LoggerField => v.Null? || v.ServiceV?
    case ConnectionServiceField => v.Null? || v.ServiceV?
    case RandomField => v.Null? || v.ServiceV?
    case TypeKey => false
  }

  /** The fields of a handler just constructed by the container. */
  function Defaults(t: HandlerType): Bag {
    map n | n in Layout(t) :: InitialValue(t, n)
  }

  /** A fresh handler holds all its fields, each with a value of its type. */
  lemma DefaultsFit(t: HandlerType)
    ensures Defaults(t).Keys == Layout(t)
    ensures forall n :: n in Defaults(t) ==> Fits(t, n, Defaults(t)[n])
  {
  }

  /** Fields `f` are exactly those of a `t` instance, each holding a value
      of its field's type. */
  predicate WellFormed(t: HandlerType, f: Bag) {
    f.Keys == Layout(t) && forall n :: n in f ==> Fits(t, n, f[n])
  }

  /** Setting one field of a well-formed instance to a value of its type
      keeps it well-formed. */
  lemma WellFormedUpdate(t: HandlerType, f: Bag, n: Key, v: Value)
    requires WellFormed(t, f) && n in Layout(t) && Fits(t, n, v)
    ensures WellFormed(t, f[n := v])
  {
    var g := f[n := v];
    assert g.Keys == f.Keys;
    forall m | m in g
      ensures Fits(t, m, g[m])
    {
      if m != n {
        assert g[m] == f[m];
      }
    }
  }

  /** The `Id` a handler with these fields reports (0 unless the backing
      field holds an integer). */
  function IdOf(fields: Bag): int {
    if IdField in fields && fields[IdField].IntV? then fields[IdField].i else 0
  }

  /** The `Name` a handler with these fields reports; `None` for null. */
  function NameOf(fields: Bag): Option<string> {
    if NameField in fields && fields[NameField].StrV? then Some(fields[NameField].s) else None
  }

  /** The exceptions the modelled code can raise. */
  datatype Fault =
    | ArgumentNullException
    | ArgumentException
    | InvalidOperationException
    | NullReferenceException

  /** One handler instance; reflection reads and writes its `fields`. */
  class SimDevice {
    const dtype: HandlerType
    var fields: Bag

    /** The container constructs a handler with its initial field values. */
    constructor (t: HandlerType)
      ensures dtype == t && fields == Defaults(t)
      ensures Valid()
    {
      DefaultsFit(t);
      dtype := t;
      fields := Defaults(t);
    }

    /** The instance holds exactly its type's fields, each with a value of
        the field's type. */
    ghost predicate Valid()
      reads this
    {
      WellFormed(dtype, fields)
    }

    /** The `Id` property. */
    function Id(): int
      reads this
    {
      IdOf(fields)
    }

    /** The `Name` property; `None` stands for null. */
    function Name(): Option<string>
      reads this
    {
      NameOf(fields)
    }
  }

  /** A `double` reading of the Sensative handlers. */
  type Reading = SensativePayload.Reading

  /** `(byte)_random.Next(0, 100)`. */
  type Percent = x: int | 0 <= x < 100

  /** What the handlers take from the wall clock, the sine curves and the
      random generator on one uplink, as plain inputs. */
  datatype Readings = Readings(
    stripTemperature: Reading,
    stripAverageTemperature: Reading,
    stripBattery: Percent,
    emBattery: byte,
    emTemperatureTenths: int16,
    emHumidityHalves: byte,
    oatTemperatureTenths: int16)

  /** `LwnDeviceResponse`: the device id and `info.name`. */
  datatype Descriptor = Descriptor(id: int32, name: string)

  datatype ConsoleLog = ConsoleLog(name: string, message: string)

  datatype ReceiveDownlink = ReceiveDownlink(name: string)

  datatype ReceiveUplink = ReceiveUplink(name: string)

  /** A message a handler hands to the connection service: the newer
      `EnqueuePayloadAsync` with the frame's bytes, or the older
      `SendPayloadAsync` with its hex text. */
  datatype Emit =
    | Enqueued(id: int, frame: seq<byte>)
    | SentUplink(id: int, payload: string)
}
