# LWN-Simulator client devices and simulator downlinks, in Dafny

This project models the device side of the LWN-Simulator ecosystem. It covers two code bases.

**The C# bridge client (`lwnsim.run`).** It listens to the simulator's socket events and plays simulated
LoRaWAN sensors. The model covers:

- the two payload encoders: the Sensative "Strips" tag/value frame and the Milesight EM300-TH
  channel-triplet frame;
- both generations of device handlers:
  - the newer `Sensative.SensativeStrip` and `Milesight.Em300th`, with its `Em300Th_Oat` and `Em300Th_Rot`
    variants;
  - the older `Devices.SensativeStrip` and `Devices.Em300th`;
- both generations of event dispatcher:
  - the newer `Factory.SimDeviceFactory`, which works over the per-device state store
    `Extensions.DeviceExtensions`;
  - the older `SimuDeviceFactory`, with its shared state bag per device id;
- the JSON converter of the `Mtype` enum;
- the three URLs derived from the configured `LwnConnection`.

**The Go simulator.** The model covers how a simulated device handles a received downlink:

- `GetDownlink` checks the MIC, the frame kind and the frame counter, then reduces the frame to an
  `InformationDownlink` record;
- `ProcessDownlink` of the device resets or advances the downlink counter, acknowledges confirmed
  downlinks and reports the data.

What the code changes in place is modelled in place:

- a handler instance is a `SimDevice` object, whose field map is what .NET reflection reads and writes;
- the dispatchers and the state store are classes with `modifies` clauses;
- the EM300 encoder writes into an `array`;
- the loops of the source are `while` loops with invariants.

Each method is proved against a specification function, and separate lemmas prove what the source
promises about that function: round trips, closed forms and the interplay of the handlers on a shared bag.

Files, one module each: `bytes.dfy`, `text.dfy` and `wrappers.dfy` hold integer widths, string and hex
helpers, `Option` and `Result`. `device_values.dfy` holds the reflection view of the handler types, the
values a bag holds and the `SimDevice` class. Then, one per source file: `sensative_payload.dfy`,
`em300_payload.dfy`, `sensative_strip.dfy`, `em300th.dfy`, `handlers.dfy` (virtual dispatch over the
newer handlers), `device_extensions.dfy`, `sim_device_factory.dfy`, `legacy_devices.dfy`,
`simu_device_factory.dfy`, `mtype_converter.dfy`, `lwn_connection.dfy`, `downlink.dfy` and
`device_downlinks.dfy`.

Inputs the model takes instead of computing:

- clock and random readings: the sine curves over `DateTime.Now` and `Random.Next` become a `Readings`
  value, given as the values after the source's casts;
- the `lorawan` library's results: MIC validation, FOpts decoding, FRMPayload decryption, join-accept
  decryption.

Outbound calls are recorded as emitted messages rather than performed: `EnqueuePayloadAsync`,
`SendPayloadAsync`, `SendAck`, `PrintDownlink`.

## Model

| member | source | states |
|---|---|---|
| SensativePayload.EncodeDouble | client/lwnsim.run/Devices/Sensative/SensativePayload.cs:16-20 | two bytes, read big-endian they are the tenths truncated toward zero, wrapped to a `short`; in range, the tenths themselves |
| SensativePayload.TemperatureExample | client/lwnsim.run/Devices/Sensative/SensativePayload.cs:16-20 | 21.3 is sent as `00 D5`, -0.55 as `FF FB` (truncation toward zero) |
| SensativePayload.EncodeBool | client/lwnsim.run/Devices/Sensative/SensativePayload.cs:28-31 | one byte, 1 exactly when the value is true, else 0 |
| SensativePayload.Not | client/lwnsim.run/Devices/Sensative/SensativePayload.cs:35 | the null-aware `!`: null gives true, any other operand its negation |
| SensativePayload.NotNot | client/lwnsim.run/Devices/Sensative/SensativePayload.cs:35 | negating a present value twice restores it |
| SensativePayload.StateNames | client/lwnsim.run/Devices/Sensative/SensativePayload.cs:53-59 | the state name is "dirty", "occupied" or "cleaning" for 0-2 and "clean" for every other byte |
| SensativePayload.EncodeInt16 | client/lwnsim.run/Devices/Sensative/SensativePayload.cs:71-74 | two bytes that read back big-endian as the value |
| SensativePayload.Plus | client/lwnsim.run/Devices/Sensative/SensativePayload.cs:77 | null counts as 0; the sum wraps as an `int`; a wrapped sum above 32767 gives 0, and any other wrapped sum, below -32768 included, its `short` narrowing, congruent to the sum modulo 2^16 |
| SensativePayload.PlusOne | client/lwnsim.run/Devices/Sensative/SensativePayload.cs:77 | `+ 1` counts 1 from null, n+1 below 32767, and wraps 32767 to 0 |
| SensativePayload.EncodeAlarms | client/lwnsim.run/Devices/Sensative/SensativePayload.cs:84-92 | one byte below 4: bit 0 is set iff the high alarm is, bit 1 is set iff the low alarm is |
| SensativePayload.AlarmsRoundTrip | client/lwnsim.run/Devices/Sensative/SensativePayload.cs:84-92 | decoding the alarm byte gives back both flags |
| SensativePayload.EncodeValue | client/lwnsim.run/Devices/Sensative/SensativePayload.cs:146-156 | each value wrapper encodes to exactly its width in bytes |
| SensativePayload.Properties | client/lwnsim.run/Devices/Sensative/SensativePayload.cs:109-130 | 22 properties in declaration order, the k-th carrying index k |
| SensativePayload.Encode | client/lwnsim.run/Devices/Sensative/SensativePayload.cs:132-161 | the list-building loop yields the specified frame |
| SensativePayload.AppendEntries | client/lwnsim.run/Devices/Sensative/SensativePayload.cs:140-157 | the `foreach` appends the index and value bytes of every non-null property, in order |
| SensativePayload.EntriesConcat | client/lwnsim.run/Devices/Sensative/SensativePayload.cs:140-157 | the entries of two property runs are the concatenation of their entries |
| SensativePayload.EntriesEmpty | client/lwnsim.run/Devices/Sensative/SensativePayload.cs:140-157 | nothing is appended iff every property is null |
| SensativePayload.EntriesLength | client/lwnsim.run/Devices/Sensative/SensativePayload.cs:140-157 | the entries are one index byte plus the value width for each populated property |
| SensativePayload.FrameHeader | client/lwnsim.run/Devices/Sensative/SensativePayload.cs:138-139 | every frame starts with `FF FF` and has at least three bytes |
| SensativePayload.FrameEmpty | client/lwnsim.run/Devices/Sensative/SensativePayload.cs:158-159 | the frame is `FF FF 00` iff no property is populated; otherwise it is the header and the entries, with no `00` added |
| SensativePayload.FrameLength | client/lwnsim.run/Devices/Sensative/SensativePayload.cs:132-161 | the length is 3 with nothing populated, else 2 plus the populated entries' sizes |
| SensativePayload.FrameAt | client/lwnsim.run/Devices/Sensative/SensativePayload.cs:140-157 | a populated property appears as its index and value bytes, after all entries of the properties before it and before those after it |
| Bytes.Int16BigEndianRoundTrip | client/lwnsim.run/Devices/Sensative/SensativePayload.cs:71-74 | reversed little-endian bytes of a `short` read back to the same `short` |
| Bytes.Int16ByteOrders | client/lwnsim.run/Devices/Milesight/Em300Payload.cs:30 | the little-endian bytes are the big-endian bytes swapped |
| Em300Payload.Encode | client/lwnsim.run/Devices/Milesight/Em300Payload.cs:18-42 | the scratch-buffer encoding, resized to the bytes written, is the specified frame of at most 10 bytes |
| Em300Payload.CopyTo | client/lwnsim.run/Devices/Milesight/Em300Payload.cs:24-36 | writing a section from an index leaves the bytes before it and puts the section after them |
| Em300Payload.FrameLength | client/lwnsim.run/Devices/Milesight/Em300Payload.cs:22-39 | 3 bytes for battery, 4 for temperature and 3 for humidity, each when present; never over 10 |
| Em300Payload.FrameExtremes | client/lwnsim.run/Devices/Milesight/Em300Payload.cs:20-39 | the frame is empty iff nothing is present, and has 10 bytes iff everything is |
| Em300Payload.FrameRoundTrip | client/lwnsim.run/Devices/Milesight/Em300Payload.cs:18-42 | decoding the channel triplets of a frame gives back the record |
| Em300Payload.Examples | client/lwnsim.run/Devices/Milesight/Em300Payload.cs:22-32 | battery 77 gives `01 75 4D`; temperature -1.5 gives `03 67 F1 FF` |
| Sensative.CanHandleDeviceResponse | client/lwnsim.run/Devices/Sensative/SensativeStrip.cs:31-34 | the strip claims a name iff its lower-case folding contains "sensative"; such a name has at least 9 characters |
| Sensative.Instance | client/lwnsim.run/Devices/Sensative/SensativeStrip.cs:40 | `??=`: a stored payload is kept, a null one replaced by an empty payload |
| Sensative.AlarmsFor | client/lwnsim.run/Devices/Sensative/SensativeStrip.cs:45-52 | an alarm flag pair is present iff T > 25 or T < 15, with high iff T > 25 and low iff T < 15 |
| Sensative.UplinkUpdate | client/lwnsim.run/Devices/Sensative/SensativeStrip.cs:40-54 | door negated, readings and battery set, alarms as `AlarmsFor`, a closing counted, every other property unchanged |
| Sensative.Advance | client/lwnsim.run/Devices/Sensative/SensativeStrip.cs:42-54 | the step-by-step property assignments give `UplinkUpdate` |
| Sensative.ProcessUplink | client/lwnsim.run/Devices/Sensative/SensativeStrip.cs:37-58 | the handler's payload field becomes `UplinkUpdate` of the old one, and its frame is enqueued under the device id |
| Sensative.TwoUplinks | client/lwnsim.run/Devices/Sensative/SensativeStrip.cs:42-54 | two uplinks restore a present door state and count exactly one closing |
| Sensative.FirstUplink | client/lwnsim.run/Devices/Sensative/SensativeStrip.cs:40-54 | a fresh payload's first uplink opens the door and counts nothing |
| Sensative.UplinkFrame | client/lwnsim.run/Devices/Sensative/SensativeStrip.cs:56-60 | the enqueued frame starts with the header and the battery entry |
| Milesight.CanHandleEm300 | client/lwnsim.run/Devices/Milesight/Em300th.cs:23-26 | the EM300 test holds iff the folded name contains "em300-th", so "EM300-TH" in any case; such a name has at least 8 characters |
| Milesight.CanHandleOat | client/lwnsim.run/Devices/Milesight/Em300th.cs:51-54 | the outdoor variant claims a name iff the EM300 test holds and "OAT" occurs at some index, compared ordinally |
| Milesight.CanHandleRot | client/lwnsim.run/Devices/Milesight/Em300th.cs:71-74 | the rotation variant claims a name iff the EM300 test holds and "ROT" occurs at some index, compared ordinally |
| Milesight.Refreshed | client/lwnsim.run/Devices/Milesight/Em300th.cs:31-33 | all three readings are present after an uplink, so the frame has 10 bytes |
| Milesight.Refresh | client/lwnsim.run/Devices/Milesight/Em300th.cs:31-33 | the three assignments give `Refreshed` |
| Milesight.ProcessUplinkBase | client/lwnsim.run/Devices/Milesight/Em300th.cs:28-37 | a null payload raises `NullReferenceException` and changes nothing; otherwise the payload is refreshed and the counter incremented with `int` wrap-around |
| Milesight.CounterStep | client/lwnsim.run/Devices/Milesight/Em300th.cs:35 | the uplink counter counts up and wraps from `int.MaxValue` to `int.MinValue` |
| Milesight.OatPayload | client/lwnsim.run/Devices/Milesight/Em300th.cs:59-60 | the refreshed readings with the outdoor temperature in place of the temperature |
| Milesight.ProcessUplinkOat | client/lwnsim.run/Devices/Milesight/Em300th.cs:56-62 | the base step, then the outdoor payload stored and its frame enqueued under the id; a null payload raises and sends nothing |
| Milesight.OatFrame | client/lwnsim.run/Devices/Milesight/Em300th.cs:56-62 | the outdoor frame carries the temperature little-endian between battery and humidity, and decodes back |
| Milesight.ProcessUplinkRot | client/lwnsim.run/Devices/Milesight/Em300th.cs:76-81 | the base step, then the handler itself is enqueued, which sends its refreshed frame |
| Milesight.LowerCaseNames | client/lwnsim.run/Devices/Milesight/Em300th.cs:51-54 | "OAT" and "ROT" are matched ordinally, so a name without upper-case letters is claimed by neither variant |
| Milesight.UplinkKeepsWellFormed | client/lwnsim.run/Devices/Milesight/Em300th.cs:14-15 | a new payload and counter keep the variant's field types |
| Handlers.CanHandle | client/lwnsim.run/Devices/Extensions/DeviceExtensions.cs:105-107 | the `CanHandle()` a claim asks is each handler's own `CanHandleDeviceResponse` over the `Name` just applied; any claimed name contains "sensative" or "em300-th" once folded |
| Handlers.Uplink | client/lwnsim.run/Devices/Interfaces/SimDeviceBase.cs:21-24 | the uplink step keeps the field names, the id and the name; it enqueues exactly one frame under the id unless it raised `NullReferenceException`, and the strip never raises |
| Handlers.ProcessUplink | client/lwnsim.run/Devices/Interfaces/SimDeviceBase.cs:21-24 | the virtual call runs the concrete override, as `Uplink` specifies |
| DeviceValues.BaseType | client/lwnsim.run/Devices/Extensions/DeviceExtensions.cs:49-50 | a base type is strictly shallower and stays on the same side of `ISimuDevice` |
| DeviceValues.LayoutMatchesReflection | client/lwnsim.run/Devices/Sensative/SensativeStrip.cs:9-13 | the fields reflection reports on an instance are exactly the handler's field layout |
| DeviceValues.Em300Reflection | client/lwnsim.run/Devices/Milesight/Em300th.cs:10-15 | the EM300 variants' reflected fields are their layout |
| DeviceValues.LegacyReflection | client/lwnsim.run/Devices/SensativeStrip.cs:16-28 | the older handlers' reflected fields are their layout |
| DeviceValues.Assign | client/lwnsim.run/Devices/Extensions/DeviceExtensions.cs:21 | `SetValue` stores the given value iff it has the field's type (null converted per type), and otherwise raises |
| DeviceValues.AssignIdempotent | client/lwnsim.run/Devices/Extensions/DeviceExtensions.cs:21 | what `SetValue` stored is accepted again unchanged |
| DeviceValues.DefaultsFit | client/lwnsim.run/Devices/Sensative/SensativeStrip.cs:9-13 | a fresh handler has exactly its layout's fields, each of the field's type |
| DeviceValues.SimDevice.constructor | client/lwnsim.run/Devices/Sensative/SensativeStrip.cs:9-18 | a fresh handler holds its initial field values |
| DeviceExtensions.DeviceStore.constructor | client/lwnsim.run/Devices/Extensions/DeviceExtensions.cs:7 | the static store starts out empty |
| DeviceExtensions.GetDeviceFields | client/lwnsim.run/Devices/Extensions/DeviceExtensions.cs:37-53 | the do-while over the type and its `ISimuDevice` bases returns the specified walk |
| DeviceExtensions.AppendWritable | client/lwnsim.run/Devices/Extensions/DeviceExtensions.cs:44-48 | the inner loop appends, in order, the level's fields that are not init-only |
| DeviceExtensions.WritableMembers | client/lwnsim.run/Devices/Extensions/DeviceExtensions.cs:46 | a field survives the filter iff it is not readonly |
| DeviceExtensions.DeviceFieldsOf | client/lwnsim.run/Devices/Extensions/DeviceExtensions.cs:37-53 | the walk reaches exactly the handler's fields minus the readonly services |
| DeviceExtensions.StripFields | client/lwnsim.run/Devices/Extensions/DeviceExtensions.cs:37-53 | for the strip: payload, `Id` and `Name` |
| DeviceExtensions.VariantFields | client/lwnsim.run/Devices/Extensions/DeviceExtensions.cs:37-53 | for the EM300 variants: counter, payload, `Id` and `Name` |
| DeviceExtensions.WalkedInLayout | client/lwnsim.run/Devices/Extensions/DeviceExtensions.cs:37-53 | the walk reaches only the handler's fields, always `Id` and `Name`, never `$type` |
| DeviceExtensions.ApplyValuesFromStorage | client/lwnsim.run/Devices/Extensions/DeviceExtensions.cs:14-23 | a null bag raises `ArgumentNullException`; otherwise the fields are set as specified, and a mistyped value raises `ArgumentException` |
| DeviceExtensions.SetEach | client/lwnsim.run/Devices/Extensions/DeviceExtensions.cs:18-22 | the `foreach` sets each walked field the bag has, in order, until a mistyped value raises |
| DeviceExtensions.ApplyFieldsFitting | client/lwnsim.run/Devices/Extensions/DeviceExtensions.cs:14-23 | a bag whose walked entries all fit sets exactly those entries and raises nothing |
| DeviceExtensions.ApplyFieldsRaiseFree | client/lwnsim.run/Devices/Extensions/DeviceExtensions.cs:18-22 | fitting entries never raise |
| DeviceExtensions.ApplyFieldsMismatch | client/lwnsim.run/Devices/Extensions/DeviceExtensions.cs:18-22 | any walked entry of the wrong type raises |
| DeviceExtensions.ApplyFieldsWellFormed | client/lwnsim.run/Devices/Extensions/DeviceExtensions.cs:18-22 | applying without a raise keeps every field of its type |
| DeviceExtensions.ApplyFieldsValue | client/lwnsim.run/Devices/Extensions/DeviceExtensions.cs:18-22 | after the apply, a walked field the bag has holds the bag's value; every other field is as before |
| DeviceExtensions.StoreValuesInStorage | client/lwnsim.run/Devices/Extensions/DeviceExtensions.cs:25-35 | the walked fields overwrite the entries of the bag of the handler's `Id`; with no such bag nothing changes |
| DeviceExtensions.StoreEach | client/lwnsim.run/Devices/Extensions/DeviceExtensions.cs:30-34 | the `foreach` writes every walked field under its name |
| DeviceExtensions.Stored | client/lwnsim.run/Devices/Extensions/DeviceExtensions.cs:30-34 | what is stored is exactly the walked fields, with their values |
| DeviceExtensions.StoreFieldsClosed | client/lwnsim.run/Devices/Extensions/DeviceExtensions.cs:30-34 | storing overwrites exactly the walked names |
| DeviceExtensions.StoredConsistent | client/lwnsim.run/Devices/Extensions/DeviceExtensions.cs:27-34 | storing a handler that carries the bag's id keeps the bag's id consistent |
| DeviceExtensions.GetOrCreateDeviceData | client/lwnsim.run/Devices/Extensions/DeviceExtensions.cs:117-128 | null gives null; a known id gives its bag; a new id gets a fresh empty bag, appended to the enumeration order |
| DeviceExtensions.DeviceCanHandle | client/lwnsim.run/Devices/Extensions/DeviceExtensions.cs:91-115 | a bag already claimed answers true and changes nothing; otherwise the candidate gets the id and name, and a claim records type, id and name in the bag |
| DeviceExtensions.ApplyTemporary | client/lwnsim.run/Devices/Extensions/DeviceExtensions.cs:99-105 | the temporary `{Id, Name}` bag changes exactly those two fields and raises nothing |
| DeviceExtensions.ApplyIdName | client/lwnsim.run/Devices/Extensions/DeviceExtensions.cs:99-105 | applying a bag of an id, a name and at most a `$type` sets exactly `Id` and `Name` |
| DeviceExtensions.FirstClaimant | client/lwnsim.run/Devices/Extensions/DeviceExtensions.cs:83-86 | none iff no candidate claims the name; otherwise the first claimant in registration order |
| DeviceExtensions.FirstClaimantAt | client/lwnsim.run/Devices/Extensions/DeviceExtensions.cs:83-86 | any claimant with no claimant before it is the first claimant |
| DeviceExtensions.AnyCanHandle | client/lwnsim.run/Devices/Extensions/DeviceExtensions.cs:83-86 | `Any` claims iff some candidate does, and only the first claimant is recorded in the bag |
| DeviceExtensions.Resolve | client/lwnsim.run/Devices/Extensions/DeviceExtensions.cs:55-66 | a bag resolves only to a registered type, with well-formed fields |
| DeviceExtensions.GetDeviceFromData | client/lwnsim.run/Devices/Extensions/DeviceExtensions.cs:55-66 | a fresh handler of the recorded type, or null or the fault that `Resolve` gives |
| DeviceExtensions.GetDeviceOfType | client/lwnsim.run/Devices/Extensions/DeviceExtensions.cs:68-73 | a fresh handler of a registered type; otherwise `First` raises `InvalidOperationException` |
| DeviceExtensions.ResolveClaim | client/lwnsim.run/Devices/Extensions/DeviceExtensions.cs:55-66 | a claimed bag resolves to the claiming type with the claimed id and name over its initial values |
| DeviceExtensions.GetDeviceById | client/lwnsim.run/Devices/Extensions/DeviceExtensions.cs:76-89 | a known id gives null and changes nothing; a new id gets a bag, and the first claimant, if any, is recorded and returned |
| DeviceExtensions.FirstNamed | client/lwnsim.run/Devices/Extensions/DeviceExtensions.cs:132-135 | none iff no bag records the name; otherwise the first bag in enumeration order that does |
| DeviceExtensions.FirstNamedAt | client/lwnsim.run/Devices/Extensions/DeviceExtensions.cs:132-135 | any named bag with no named bag before it is the first |
| DeviceExtensions.GetDeviceByName | client/lwnsim.run/Devices/Extensions/DeviceExtensions.cs:130-138 | the handler resolved from the first bag naming the device, carrying that bag's id; null when no bag does |
| DeviceExtensions.RecordedTypes | client/lwnsim.run/Devices/Extensions/DeviceExtensions.cs:140-147 | at most one type per bag |
| DeviceExtensions.RecordedMembers | client/lwnsim.run/Devices/Extensions/DeviceExtensions.cs:140-147 | a type is enumerated iff some bag records it |
| DeviceExtensions.PersistRoundTrip | client/lwnsim.run/Devices/Extensions/DeviceExtensions.cs:14-35 | storing a handler's fields, then resolving and applying the bag, gives back those fields over the initial values |
| DeviceExtensions.ApplyStoredOver | client/lwnsim.run/Devices/Extensions/DeviceExtensions.cs:14-35 | applying a bag that fitting fields were stored into sets exactly those fields |
| DeviceExtensions.StoredOverlay | client/lwnsim.run/Devices/Extensions/DeviceExtensions.cs:25-35 | reading the stored fields back out of the bag gives what was stored |
| Factory.SimDeviceFactory.constructor | client/lwnsim.run/Devices/Factory/SimDeviceFactory.cs:27-31 | the factory holds the registered handler types and the shared store |
| Factory.SimDeviceFactory.ProcessTick | client/lwnsim.run/Devices/Factory/SimDeviceFactory.cs:33-40 | every recorded type, in enumeration order, is built, ticked and stored; an unregistered type stops the tick with `InvalidOperationException` |
| Factory.TickDevice | client/lwnsim.run/Devices/Factory/SimDeviceFactory.cs:35-39 | one tick step: a registered type's fresh instance, with id 0, is stored into bag 0 if there is one |
| Factory.TickStep | client/lwnsim.run/Devices/Factory/SimDeviceFactory.cs:35-39 | the loop body at one bag: its recorded type is ticked and stored, or the tick fails on an unregistered one |
| Factory.TickStoresSnoc | client/lwnsim.run/Devices/Factory/SimDeviceFactory.cs:35-39 | one more ticked type writes its initial walked fields into bag 0 only |
| Factory.TickStoresType | client/lwnsim.run/Devices/Factory/SimDeviceFactory.cs:35-39 | the tick never changes which type a bag records |
| Factory.TickBagType | client/lwnsim.run/Devices/Factory/SimDeviceFactory.cs:35-39 | `$type` is not a walked field, so bag 0 keeps it |
| Factory.TickForgetsName | client/lwnsim.run/Devices/Factory/SimDeviceFactory.cs:35-39 | after a tick, bag 0 holds the last ticked type's initial values: id 0, null name, so a lookup by name no longer finds it |
| Factory.SimDeviceFactory.ProcessDescriptor | client/lwnsim.run/Devices/Factory/SimDeviceFactory.cs:42-50 | a known id changes nothing; a new id gets a bag claimed by the first claimant, which is stored |
| Factory.StoreDescriptor | client/lwnsim.run/Devices/Factory/SimDeviceFactory.cs:48-49 | the claiming handler's no-op descriptor step and store leave exactly the descriptor bag |
| Factory.ClaimedBag | client/lwnsim.run/Devices/Factory/SimDeviceFactory.cs:42-50 | a claimed bag records the type and the name, and resolves to the handler that introduced it |
| Factory.IntroducedFields | client/lwnsim.run/Devices/Factory/SimDeviceFactory.cs:42-50 | the introduced state is well-formed and is rebuilt from its stored fields |
| Factory.SimDeviceFactory.ProcessDownlink | client/lwnsim.run/Devices/Factory/SimDeviceFactory.cs:53-60 | the named device's handler is resolved, its no-op step runs and its fields are stored back |
| Factory.SimDeviceFactory.ProcessConsoleLog | client/lwnsim.run/Devices/Factory/SimDeviceFactory.cs:62-69 | as for the downlink |
| Factory.SimDeviceFactory.Redeliver | client/lwnsim.run/Devices/Interfaces/SimDeviceBase.cs:10-19 | lookup, the base's no-op overload, then the store |
| Factory.RedeliverStable | client/lwnsim.run/Devices/Interfaces/SimDeviceBase.cs:10-19 | storing a resolved handler and resolving again gives the same handler; fitting entries are kept |
| Factory.RestoredFields | client/lwnsim.run/Devices/Extensions/DeviceExtensions.cs:25-35 | a handler that holds its initial values outside the walked fields is rebuilt exactly from what was stored |
| Factory.SimDeviceFactory.ProcessUplink | client/lwnsim.run/Devices/Factory/SimDeviceFactory.cs:71-78 | no device or a lookup fault changes nothing; otherwise the handler's uplink step runs, and unless it raised, its fields are stored into the named bag |
| Legacy.StripDescriptor | client/lwnsim.run/Devices/SensativeStrip.cs:215-239 | a non-strip name or no pending uplink changes nothing; otherwise the flag is cleared, and the state's hex frame is sent, or a null state raises |
| Legacy.StripConsole | client/lwnsim.run/Devices/SensativeStrip.cs:246-276 | for a strip name and "Uplink sent" in any case, the flag is raised and the state advanced; any other message changes nothing |
| Legacy.Em300Descriptor | client/lwnsim.run/Devices/Em300th.cs:32-39 | every descriptor clears the flag, whatever the device, and nothing else changes |
| Legacy.OnEvent | client/lwnsim.run/Devices/SimDeviceBase.cs:8-17 | only the flag and the state change; only descriptors send or raise; `Em300th` never does |
| Legacy.ProcessEvent | client/lwnsim.run/Devices/SimDeviceBase.cs:8-17 | the handler's step on an event is `OnEvent`: the strip's two-argument overrides, `Em300th`'s one-argument descriptor body taken as its descriptor step, and the base no-op elsewhere |
| Legacy.StripProcessDescriptor | client/lwnsim.run/Devices/SensativeStrip.cs:215-239 | the step-by-step descriptor handler is `StripDescriptor` |
| Legacy.StripProcessConsole | client/lwnsim.run/Devices/SensativeStrip.cs:246-276 | the step-by-step console handler is `StripConsole` |
| Legacy.Em300ProcessDescriptor | client/lwnsim.run/Devices/Em300th.cs:32-39 | the descriptor handler is `Em300Descriptor` |
| Legacy.Em300Step | client/lwnsim.run/Devices/Em300th.cs:32-44 | closed form: a descriptor clears the flag, every other event keeps it |
| Legacy.StripConsoleStep | client/lwnsim.run/Devices/SensativeStrip.cs:251-270 | closed form of a strip uplink report: flag raised, state advanced |
| Legacy.StripDescriptorStep | client/lwnsim.run/Devices/SensativeStrip.cs:217-236 | closed form: a strip name clears the flag; the hex text is sent only when the flag was raised and there is a state |
| Legacy.StripQuietStep | client/lwnsim.run/Devices/SensativeStrip.cs:241-249 | downlinks, and console messages that are not strip uplink reports, change nothing |
| Legacy.StripSendsOnce | client/lwnsim.run/Devices/SensativeStrip.cs:230-253 | a report arms the strip; the next descriptor sends the advanced state's hex text, which decodes to its frame; a second descriptor sends nothing |
| Legacy.StripWaitsForUplink | client/lwnsim.run/Devices/SensativeStrip.cs:230 | without a pending report a descriptor sends and changes nothing |
| Legacy.Em300CanHandle | client/lwnsim.run/Devices/Em300th.cs:27-30 | the older EM300's `CanHandle` holds exactly for the names the strip claims: those containing "sensative" in any case |
| Legacy.Em300ClaimsStripNames | client/lwnsim.run/Devices/Em300th.cs:27-30 | the older EM300 claims exactly the "sensative" names, never "EM300-TH" |
| Text.ToHexString | client/lwnsim.run/Devices/SensativeStrip.cs:233 | two characters per byte, at positions 2i and 2i+1 the upper-case digits (`0`-`9`, `A`-`F`) of its high and low nibble |
| Text.HexRoundTrip | client/lwnsim.run/Devices/SensativeStrip.cs:233 | the hex text decodes back to the bytes |
| LegacyFactory.SimuDeviceFactory.constructor | client/lwnsim.run/Devices/SimuDeviceFactory.cs:13-21 | empty dictionaries over the registered handlers |
| LegacyFactory.SimuDeviceFactory.ProcessDescriptor | client/lwnsim.run/Devices/SimuDeviceFactory.cs:23-33 | the descriptor is recorded by id, then dispatched to every handler on the id's bag; nothing raises |
| LegacyFactory.SimuDeviceFactory.ProcessDownlink | client/lwnsim.run/Devices/SimuDeviceFactory.cs:66-76 | the handlers run on the bag of the first descriptor with the name, or on null |
| LegacyFactory.SimuDeviceFactory.ProcessDownlinkGuarded | client/lwnsim.run/Devices/SimuDeviceFactory.cs:66-76 | with the console's null check: an unknown name reaches no handler; nothing raises or sends |
| LegacyFactory.SimuDeviceFactory.ProcessConsole | client/lwnsim.run/Devices/SimuDeviceFactory.cs:78-90 | an unknown name is skipped; otherwise every handler runs on the bag; nothing raises or sends |
| LegacyFactory.SimuDeviceFactory.RunHandlers | client/lwnsim.run/Devices/SimuDeviceFactory.cs:26-32 | the `foreach` over the handlers gives the specified dispatch |
| LegacyFactory.SimuDeviceFactory.RunOne | client/lwnsim.run/Devices/SimuDeviceFactory.cs:28-31 | the loop body: fetch the bag, take the turn, keep the bag the turn leaves |
| LegacyFactory.SimuDeviceFactory.TakeTurn | client/lwnsim.run/Devices/SimuDeviceFactory.cs:29-31 | apply, process without awaiting, store: the specified `Turn` |
| LegacyFactory.SimuDeviceFactory.GetDeviceData | client/lwnsim.run/Devices/SimuDeviceFactory.cs:55-64 | null gives null; an id gets its bag, created empty the first time |
| LegacyFactory.SimuDeviceFactory.GetDeviceIdByName | client/lwnsim.run/Devices/SimuDeviceFactory.cs:92-101 | the enumeration returns the first id whose descriptor carries the name |
| LegacyFactory.FirstResponse | client/lwnsim.run/Devices/SimuDeviceFactory.cs:92-101 | none iff no descriptor carries the name; otherwise the first in enumeration order |
| LegacyFactory.FirstResponseAt | client/lwnsim.run/Devices/SimuDeviceFactory.cs:92-101 | any match with no match before it is the first |
| LegacyFactory.SimuDeviceFactory.ApplyValuesFromStorage | client/lwnsim.run/Devices/SimuDeviceFactory.cs:35-43 | a null bag is dereferenced; otherwise every reflected field the bag has is set, and a mistyped value raises |
| LegacyFactory.SimuDeviceFactory.StoreValuesInStorage | client/lwnsim.run/Devices/SimuDeviceFactory.cs:45-53 | every non-readonly reflected field is written under its name |
| LegacyFactory.LegacyWalk | client/lwnsim.run/Devices/SimuDeviceFactory.cs:37-50 | reflection reports every field of the layout, and the store keeps all of them except the services |
| LegacyFactory.Applied | client/lwnsim.run/Devices/SimuDeviceFactory.cs:35-43 | an apply without a raise leaves well-formed fields |
| LegacyFactory.AppliedFitting | client/lwnsim.run/Devices/SimuDeviceFactory.cs:35-43 | a fitting bag is copied in as it is; fields it lacks keep their initial values |
| LegacyFactory.Turn | client/lwnsim.run/Devices/SimuDeviceFactory.cs:28-31 | only the strip's descriptor turn sends anything |
| LegacyFactory.RunWith | client/lwnsim.run/Devices/SimuDeviceFactory.cs:26-32 | the only fault that ends a dispatch is the apply's `ArgumentException` |
| LegacyFactory.NeverRaises | client/lwnsim.run/Devices/SimuDeviceFactory.cs:26-32 | on the bags the older handlers leave behind, no dispatch raises, and such bags stay that way |
| LegacyFactory.OnlyDescriptorsSend | client/lwnsim.run/Devices/SimuDeviceFactory.cs:66-90 | downlinks and console messages never send |
| LegacyFactory.StripApplied | client/lwnsim.run/Devices/SimuDeviceFactory.cs:35-43 | a strip takes the whole bag over its initial values |
| LegacyFactory.Em300Applied | client/lwnsim.run/Devices/SimuDeviceFactory.cs:35-43 | an `Em300th` takes only the shared flag |
| LegacyFactory.StripStored | client/lwnsim.run/Devices/SimuDeviceFactory.cs:45-53 | storing a strip sets the bag's state and flag |
| LegacyFactory.Em300Stored | client/lwnsim.run/Devices/SimuDeviceFactory.cs:45-53 | storing an `Em300th` sets only the flag |
| LegacyFactory.Em300Turn | client/lwnsim.run/Devices/SimuDeviceFactory.cs:28-31 | `Em300th`'s turn sends nothing, clears the shared flag on any descriptor and keeps it otherwise |
| LegacyFactory.StripConsoleTurn | client/lwnsim.run/Devices/SimuDeviceFactory.cs:83-88 | the strip's turn on a report advances the bag's state and raises its flag |
| LegacyFactory.StripDescriptorTurn | client/lwnsim.run/Devices/SimuDeviceFactory.cs:28-31 | the strip's descriptor turn clears the flag for a strip name and sends only when it was raised |
| LegacyFactory.StripQuietTurn | client/lwnsim.run/Devices/SimuDeviceFactory.cs:71-88 | the strip's other turns write the bag back as it was |
| LegacyFactory.ReportedPending | client/lwnsim.run/Devices/SensativeStrip.cs:253-270 | after a report the flag is raised and the state is the advanced one |
| LegacyFactory.TurnIsSpec | client/lwnsim.run/Devices/SimuDeviceFactory.cs:28-31 | each handler's turn on such a bag is its closed form |
| LegacyFactory.RunAllIsSpec | client/lwnsim.run/Devices/SimuDeviceFactory.cs:26-32 | the whole dispatch is the run of the closed-form turns |
| LegacyFactory.RunTwo | client/lwnsim.run/Devices/SimuDeviceFactory.cs:26-32 | two handlers in a row chain their bags and concatenate their sends |
| LegacyFactory.Em300FirstConsole | client/lwnsim.run/Devices/SimuDeviceFactory.cs:81-89 | with `Em300th` registered first, a report still advances the state and raises the flag |
| LegacyFactory.Em300FirstNeverSends | client/lwnsim.run/Devices/SimuDeviceFactory.cs:26-32 | with `Em300th` first, no descriptor makes the strip send |
| LegacyFactory.SharedFlagSwallowsUplink | client/lwnsim.run/Devices/SimuDeviceFactory.cs:26-32 | the shared `_uplinkReceived` entry: with `Em300th` first, the report raises the flag but the next descriptor sends nothing |
| LegacyFactory.StripFirstConsole | client/lwnsim.run/Devices/SimuDeviceFactory.cs:81-89 | with the strip first, a report advances the state and raises the flag |
| LegacyFactory.StripFirstDescriptor | client/lwnsim.run/Devices/SimuDeviceFactory.cs:26-32 | with the strip first, a descriptor sends exactly what the strip's turn sends |
| LegacyFactory.StripFirstSends | client/lwnsim.run/Devices/SimuDeviceFactory.cs:23-33 | with the strip first, the descriptor after a report sends the hex text of the advanced state |
| LegacyFactory.UnknownDownlinkName | client/lwnsim.run/Devices/SimuDeviceFactory.cs:66-76 | as written, an unknown name raises `NullReferenceException` iff any handler is registered; with the guard nothing happens |
| MtypeConverter.Read | client/lwnsim.run/Poco/Http/LwnDeviceResponse.cs:95-108 | a non-string or blank token raises `JsonException`; a string containing "unconfirmed" in any case is `UnConfirmedDataUp`, every other string `ConfirmedDataUp` |
| MtypeConverter.Write | client/lwnsim.run/Poco/Http/LwnDeviceResponse.cs:110-122 | each member's name; any other value raises `ArgumentOutOfRangeException` |
| MtypeConverter.RoundTrip | client/lwnsim.run/Poco/Http/LwnDeviceResponse.cs:95-122 | reading what was written gives back the member |
| MtypeConverter.ReadIgnoresCase | client/lwnsim.run/Poco/Http/LwnDeviceResponse.cs:104 | a string and its lower-case form read alike |
| MtypeConverter.UnConfirmedNameMatches | client/lwnsim.run/Poco/Http/LwnDeviceResponse.cs:104-115 | "UnConfirmedDataUp" contains the needle |
| MtypeConverter.ConfirmedNameMisses | client/lwnsim.run/Poco/Http/LwnDeviceResponse.cs:104-118 | "ConfirmedDataUp" does not |
| MtypeConverter.NamesNotBlank | client/lwnsim.run/Poco/Http/LwnDeviceResponse.cs:101-118 | neither written name is blank |
| Connection.LwnConnection.ApiUrl | client/lwnsim.run/Configuration/LwnConnection.cs:7 | the connection (empty when null) followed by "/api/" |
| Connection.LwnConnection.WsHttpUrl | client/lwnsim.run/Configuration/LwnConnection.cs:8 | the connection followed by "/socket.io/" |
| Connection.LwnConnection.WsUrl | client/lwnsim.run/Configuration/LwnConnection.cs:9 | a null connection raises; otherwise every "http" is replaced by "ws", then "/socket.io/" follows |
| Connection.NoHttpLeft | client/lwnsim.run/Configuration/LwnConnection.cs:9 | no "http" is left after the replacement, not even across a replacement's edges |
| Connection.NoHttpSameSocket | client/lwnsim.run/Configuration/LwnConnection.cs:8-9 | without "http" both socket addresses coincide |
| Connection.ToWsHttp | client/lwnsim.run/Configuration/LwnConnection.cs:9 | a leading "http" becomes "ws": "https" turns into "wss" |
| Connection.ToWsOther | client/lwnsim.run/Configuration/LwnConnection.cs:9 | a leading character other than 'h' is kept, so "HTTP" is not replaced |
| Connection.ApiExamples | client/lwnsim.run/Configuration/LwnConnection.cs:7 | "http://h" gives "http://h/api/"; null gives "/api/" |
| Downlink.GetDownlink | simulator/components/device/frames/downlink/downlink.go:21-106 | the field-by-field construction of the record is the specified decoding |
| Downlink.Decisions | simulator/components/device/frames/downlink/downlink.go:27-52 | the MIC is checked first, then the MACPayload kind, then FOpts decoding; a failure returns no record, counter 0 and the error; an empty decryption on a data port panics |
| Downlink.RecordContents | simulator/components/device/frames/downlink/downlink.go:54-105 | the frame's header and counter, a missing port read as 0, the FOpts or the NwkSKey-decrypted commands, the AppSKey-decrypted data, and the counter mismatch as the only error |
| Downlink.CounterOnlyAddsError | simulator/components/device/frames/downlink/downlink.go:41-48 | checking the counter never changes the record or counter returned; it only adds the error |
| Downlink.DisabledIgnoresCounter | simulator/components/device/frames/downlink/downlink.go:41 | with checking disabled, the expected counter plays no part |
| Downlink.CounterMismatch | simulator/components/device/frames/downlink/downlink.go:43-45 | no error iff the frame counter is the expected one; otherwise the mismatch with both counters |
| Downlink.KeyOfPort | simulator/components/device/frames/downlink/downlink.go:77-103 | port 0 and a missing port never read the AppSKey decryption; a port other than 0 never reads the NwkSKey one |
| DeviceDownlinks.NextFCntDown | simulator/components/device/downlinks.go:36-42 | below 16384; one past the returned counter after an error, else one past the old one, wrapping to 0 |
| DeviceDownlinks.DataEffects | simulator/components/device/downlinks.go:44-50 | one ack iff confirmed, then one report iff the record carries data, with its port and data |
| DeviceDownlinks.Device.constructor | simulator/components/device/downlinks.go:12-16 | the configured counter and flag, no effects yet |
| DeviceDownlinks.Device.Resynchronise | simulator/components/device/downlinks.go:36-46 | the counter as `NextFCntDown`; a confirmed downlink adds one ack |
| DeviceDownlinks.Device.ProcessDownlink | simulator/components/device/downlinks.go:12-73 | join-accept: the decryption error, or counter 0 and the hand-over; data: counter, ack and report as specified, the record's nil dereference included; other kinds change nothing |
| DeviceDownlinks.Device.ProcessDownlinkGuarded | simulator/components/device/downlinks.go:12-73 | the same with a nil check: a rejected data frame returns its error and changes no state |
| DeviceDownlinks.InvalidMicPanics | simulator/components/device/downlinks.go:36-48 | as written, a data frame with a bad MIC panics at the nil record after the counter was set to 1 and any ack was sent |
| DeviceDownlinks.GuardedAnswersRejects | simulator/components/device/downlinks.go:36-50 | guarded, a rejected frame returns its error, an accepted one is unchanged, and only the decode panic remains |
| DeviceDownlinks.MismatchResynchronises | simulator/components/device/downlinks.go:36-42 | a counter mismatch is not fatal: the record and the mismatch come back, and the counter resumes after the frame's |

## Left out

- Dependency injection: no handler registration is part of the source (`Program.cs` registers only `LwnConnectionService`). Handlers are assumed transient, so every resolution builds a fresh instance. `Factory.TickForgetsName`, `Factory.RedeliverStable` and the older factory's write-back rest on that assumption. The set of registered types and their order are parameters (`registered`, `handlers`, and `Em300First` or `StripFirst` for the two orders).
- Null strings: a descriptor's `info` and `name`, and a console message's `name` and `message`, are never null in the model. The handlers' name checks dereference them, and the `NullReferenceException` a null would raise there is not modelled.
- Legacy.ProcessEvent: the older `Devices/Em300th.cs` does not match its base. Its `override`s at lines 27, 32 and 41 name `CanHandle(LwnDeviceResponse)`, a one-argument `ProcessAsync(LwnDeviceResponse)` and a one-argument `ProcessAsync(ConsoleLog)`. Neither `Devices/SimDeviceBase.cs` nor `Devices/ISimuDevice.cs` declares these, so the file does not compile as given. The older factory calls only the two-argument overloads (`SimuDeviceFactory.cs:30`). The model reads the one-argument descriptor body (lines 32-39) as `Em300th`'s descriptor step, as if its signature were the two-argument overload. `Legacy.Em300Descriptor`, `LegacyFactory.Em300Turn`, `LegacyFactory.Em300FirstNeverSends` and `LegacyFactory.SharedFlagSwallowsUplink` rest on this reading. If the call is instead read literally, it reaches the base no-op: `Em300th` then never touches the shared flag, and the strip sends whichever handler runs first. Its console step is the base no-op under either reading.
- Asynchrony:
  - The newer factory awaits every step, so it is modelled sequentially.
  - The older factory does not await `ProcessAsync`. The model runs the handler's synchronous part inside the turn.
  - An exception inside the unawaited task, such as the strip's `NullReferenceException` on a null state, stays in that task. `LegacyFactory.Turn` drops it.
- Floating point: the sine readings over `DateTime.Now` and `Random.Next` are the `Readings` input, given after the source's casts. `(short)(x * 10.0)` is modelled as truncation of a real with `short` wrap-around.
- `Milesight.Refreshed`: the three EM300 readings come from one sine curve, but the model takes them as independent inputs.
- `UriBuilder` parsing and normalisation, which the three connection URLs pass through. The model states the text handed to it.
- The `lorawan` library: MIC computation, FOpts and FRMPayload decoding and decryption, join-accept decryption. Their results are inputs.
- The counter error text is modelled as its two numbers (`InvalidCounter(counter, fCnt)`), not the formatted string.
- A nil `DataPayload` byte slice is `None`, and a present empty one is `Some([])`.
- `DwellTime` is never set by `GetDownlink`, so the record leaves it out.
- The Go device's post-processing after the `switch` in `ProcessDownlink` (downlinks.go:53-70) is left out: class-A and class-C cleanup, and the ADR reset with its print. It touches no state this model has. `ProcessJoinAccept` is represented only by the hand-over of the decrypted join-accept.
- `SendAck`, `PrintDownlink`, `EnqueuePayloadAsync` and `SendPayloadAsync` are recorded as emitted effects. Logging is left out.
- The static dictionaries `_deviceData` and `_deviceResponses` are fields of the store and factory objects. Dictionary enumeration order is modelled as insertion order. A bag is a value, so the source's aliasing of one dictionary instance between calls is modelled by writing the bag back.
- Reflection is modelled by explicit field lists per type level.
- Case-insensitive comparison is ASCII case folding.
- Newer handler members with no declaration: the newer handler files do not compile against `Devices/Interfaces/SimDeviceBase.cs` and `Devices/Interfaces/ISimuDevice.cs` as given. Those declare only `CanHandle(LwnDeviceResponse)` and four one-argument `ProcessAsync` overloads. The model assumes the missing members as follows.
  - `Id` and `Name` are auto-properties whose backing fields `<Id>k__BackingField` and `<Name>k__BackingField` the store reads and writes (`DeviceExtensions.cs:11-12, 27`).
  - The parameterless `CanHandle()` called at `DeviceExtensions.cs:107` returns the handler's `CanHandleDeviceResponse()`, the method `SensativeStrip.cs:31` and `Em300th.cs:23, 51, 71` override.
  - The parameterless tick `ProcessAsync()` called at `Factory/SimDeviceFactory.cs:37` completes without effect. No handler declares it.
  - `EnqueuePayloadAsync`, which `Services/LwnConnectionService.cs` does not declare (it has `SendPayloadAsync` and `ChangePayloadAsync`), is recorded as an `Enqueued` emit. The emit carries the device id and the encoded frame, whether the call passes `this` (`SensativeStrip.cs:56`, `Em300th.cs:80`) or the id and bytes (`Em300th.cs:61`).
  - Members that rest on these assumptions:
    - on the tick: `Factory.SimDeviceFactory.ProcessTick`, `Factory.TickDevice`, `Factory.TickStep`, `Factory.TickStoresSnoc` and `Factory.TickForgetsName`;
    - on `CanHandle()`: `Handlers.CanHandle`, `DeviceExtensions.DeviceCanHandle`, `DeviceExtensions.FirstClaimant` and `DeviceExtensions.AnyCanHandle`;
    - on the enqueue: `Sensative.ProcessUplink`, `Milesight.ProcessUplinkOat` and `Milesight.ProcessUplinkRot`.
  - The base overloads the newer handlers do not override, as for a descriptor, a downlink or a console message, are modelled as the no-ops the base defines.
- The JSON serialisation of the state bag (`ToString`) and the JavaScript decoder are not part of this model.

## Findings

| source | as written | input that shows it | evidently intended | confidence | as-written member | corrected member |
|---|---|---|---|---|---|---|
| simulator/components/device/downlinks.go:36-50 | the error from `GetDownlink` is swallowed by commented-out code; the counter is then advanced, the ack sent, and `payload.DataPayload` read from a nil record | a confirmed data downlink whose MIC does not validate: counter set to 1, ack sent, then a nil dereference | return the error without touching the counter, the ack or the record | not executed | DeviceDownlinks.InvalidMicPanics | DeviceDownlinks.Device.ProcessDownlinkGuarded |
| client/lwnsim.run/Devices/SimuDeviceFactory.cs:66-76 | `Process(ReceiveDownlink)` passes `GetDeviceData(null)` to `ApplyValuesFromStorage`, which calls `TryGetValue` on null | a downlink for a name that no recorded descriptor carries, with at least one handler registered | skip the handlers when there is no bag, as `Process(ConsoleLog)` does at lines 84-85 | not executed | LegacyFactory.UnknownDownlinkName | LegacyFactory.SimuDeviceFactory.ProcessDownlinkGuarded |
