/** The newer event dispatcher (`lwnsim.Devices.Factory.SimDeviceFactory`):
    every event resolves a fresh handler from the state store, lets it
    process the event and writes the handler's fields back into the bag of
    the handler's `Id`.

    Of the newer handlers only `ProcessAsync(ReceiveUplink)` is overridden;
    the descriptor, downlink and console overloads are the base's, which
    complete without effect, and so is the parameterless tick overload. */
module Factory {

  import opened Wrappers
  import opened Bytes
  import opened DeviceValues
  import opened DeviceExtensions
  import Handlers

  /** The fields of a handler after a descriptor claimed it: its initial
      values with the descriptor's id and name applied. */
  function Introduced(t: NewHandler, id: int32, name: string): Bag {
    Defaults(t)[IdField := IntV(id)][NameField := StrV(name)]
  }

  /** The bag a descriptor leaves under a new id: empty when no handler
      claims the name, else the claim with the claiming handler's walked
      fields stored over it. */
  function DescriptorBag(claimant: Option<NewHandler>, d: Descriptor): Bag {
    if claimant.None? then map[]
    else
      var t := claimant.value;
      Claim(map[], t, d.id, d.name) + Stored(Introduced(t, d.id, d.name), DeviceFields(t))
  }

  /** The bag of id 0 after the tick stored a fresh handler of each type in
      `ts`, in order. `GetDevice(type)` applies no stored values, so each of
      these handlers reports `Id` 0 and writes its initial fields there. */
  function TickBag(b: Bag, ts: seq<NewHandler>): Bag
    decreases |ts|
  {
    if ts == [] then b
    else
      var t := ts[|ts| - 1];
      TickBag(b, ts[..|ts| - 1]) + Stored(Defaults(t), DeviceFields(t))
  }

  /** The store's bags after the tick processed the handler types `ts`. */
  function TickStores(bags: map<int, Bag>, ts: seq<NewHandler>): map<int, Bag> {
    if 0 in bags then bags[0 := TickBag(bags[0], ts)] else bags
  }

  /** What `GetDevice(name)` resolves: no handler without a bag recording
      the name, else the first such bag's resolution. */
  function Route(cs: seq<NewHandler>, bags: map<int, Bag>, order: seq<int>, name: string): Resolution
    requires forall i :: 0 <= i < |order| ==> order[i] in bags
  {
    var k := FirstNamed(bags, order, name);
    if k.None? then NoDevice else Resolve(cs, Some(bags[k.value]))
  }

  class SimDeviceFactory {
    /** The registered `ISimuDevice` handler types, in registration order. */
    const registered: seq<NewHandler>
    /** The static `_deviceData`. */
    const store: DeviceStore

    constructor (registered: seq<NewHandler>, store: DeviceStore)
      ensures this.registered == registered && this.store == store
    {
      this.registered := registered;
      this.store := store;
    }

    ghost predicate Valid()
      reads this, store
    {
      store.Valid() && store.Consistent()
    }

    /** `ProcessAsync()`: for every bag that records a `$type`, in
        enumeration order, a fresh handler of the type is built, ticked and
        stored. A recorded type that no registered handler has stops the
        tick with `InvalidOperationException`. Returns the types processed. */
    method ProcessTick() returns (processed: seq<NewHandler>, fault: Option<Fault>)
      requires Valid()
      modifies store
      ensures Valid() && store.order == old(store.order)
      ensures forall t :: t in processed ==> t in registered
      ensures var ts := RecordedTypes(old(store.bags), old(store.order));
              if fault.None? then processed == ts
              else fault == Some(InvalidOperationException) && |processed| < |ts|
                   && processed == ts[..|processed|] && ts[|processed|] !in registered
      ensures store.bags == TickStores(old(store.bags), processed)
    {
      processed := [];
      var i := 0;
      while i < |store.order|
        invariant 0 <= i <= |store.order| && store.order == old(store.order)
        invariant Valid()
        invariant forall j :: 0 <= j < |store.order| ==> store.order[j] in old(store.bags)
        invariant processed == RecordedTypes(old(store.bags), store.order[..i])
        invariant forall t :: t in processed ==> t in registered
        invariant store.bags == TickStores(old(store.bags), processed)
      {
        RecordedSnoc(old(store.bags), store.order, i);
        var next, f := TickStep(store, registered, old(store.bags), processed, store.order[i]);
        if f.Some? {
          TickStopped(old(store.bags), store.order, i);
          return processed, f;
        }
        processed := next;
        i := i + 1;
      }
      assert store.order[..i] == store.order;
      fault := None;
    }

    /** `ProcessAsync(LwnDeviceResponse)`: a device id seen for the first
        time is offered to the handlers; the claiming one processes the
        descriptor and is stored. Returns the claiming type. */
    method ProcessDescriptor(d: Descriptor) returns (handled: Option<NewHandler>, fault: Option<Fault>)
      requires Valid()
      modifies store
      ensures Valid() && fault.None?
      ensures d.id in old(store.bags) ==>
                handled.None? && store.bags == old(store.bags) && store.order == old(store.order)
      ensures d.id !in old(store.bags) ==>
                handled == FirstClaimant(registered, d.name)
                && store.bags == old(store.bags)[d.id := DescriptorBag(handled, d)]
                && store.order == old(store.order) + [d.id]
    {
      ghost var claimant := FirstClaimant(registered, d.name);
      var device, f := GetDeviceById(store, registered, d.id, d.name);
      if device == null {
        return None, f;
      }
      // `device.ProcessAsync(deviceResponse)`: no newer handler overrides it.
      var t: NewHandler := device.dtype;
      assert claimant == Some(t);
      ghost var claimed := store.bags;
      StoreDescriptor(store, device, d);
      Overwrite(old(store.bags), d.id, Claim(map[], t, d.id, d.name), DescriptorBag(Some(t), d));
      handled, fault := Some(t), None;
    }

    /** `ProcessAsync(ReceiveDownlink)`. */
    method ProcessDownlink(downlink: ReceiveDownlink) returns (handled: Option<NewHandler>, fault: Option<Fault>)
      requires Valid()
      modifies store
      ensures Valid() && store.order == old(store.order)
      ensures Redelivered(old(store.bags), old(store.order), downlink.name, handled, fault, store.bags)
    {
      handled, fault := Redeliver(downlink.name);
    }

    /** `ProcessAsync(ConsoleLog)`. */
    method ProcessConsoleLog(message: ConsoleLog) returns (handled: Option<NewHandler>, fault: Option<Fault>)
      requires Valid()
      modifies store
      ensures Valid() && store.order == old(store.order)
      ensures Redelivered(old(store.bags), old(store.order), message.name, handled, fault, store.bags)
    {
      handled, fault := Redeliver(message.name);
    }

    /** The outcome of an event whose handler does nothing: the handler
        resolved by name, and its fields stored back into the bag found. */
    ghost predicate Redelivered(bags: map<int, Bag>, order: seq<int>, name: string,
                                handled: Option<NewHandler>, fault: Option<Fault>, after: map<int, Bag>)
      requires forall i :: 0 <= i < |order| ==> order[i] in bags
      reads this
    {
      match Route(registered, bags, order, name)
      case NoDevice => handled.None? && fault.None? && after == bags
      case Raised(e) => handled.None? && fault == Some(e) && after == bags
      case Resolved(t, f) =>
        var k := FirstNamed(bags, order, name).value;
        handled == Some(t) && fault.None? && after == bags[k := bags[k] + Stored(f, DeviceFields(t))]
    }

    /** `GetDevice(name)`, the handler's no-op `ProcessAsync` overload, and
        `StoreValuesInStorage`. */
    method Redeliver(name: string) returns (handled: Option<NewHandler>, fault: Option<Fault>)
      requires Valid()
      modifies store
      ensures Valid() && store.order == old(store.order)
      ensures Redelivered(old(store.bags), old(store.order), name, handled, fault, store.bags)
    {
      var device, f := GetDeviceByName(store, registered, name);
      if device == null {
        return None, f;
      }
      var t: NewHandler := device.dtype;
      StoreValuesInStorage(store, device);
      handled, fault := Some(t), None;
    }

    /** `ProcessAsync(ReceiveUplink)`: the handler resolved by name runs its
        uplink step; unless that raised, its fields are stored back. */
    method ProcessUplink(uplink: ReceiveUplink, rd: Readings)
      returns (handled: Option<NewHandler>, fault: Option<Fault>, emits: seq<Emit>)
      requires Valid()
      modifies store
      ensures Valid() && store.order == old(store.order)
      ensures match Route(registered, old(store.bags), old(store.order), uplink.name)
              case NoDevice => handled.None? && fault.None? && emits == [] && store.bags == old(store.bags)
              case Raised(e) => handled.None? && fault == Some(e) && emits == [] && store.bags == old(store.bags)
              case Resolved(t, f) =>
                var s := Handlers.Uplink(t, f, rd);
                var k := FirstNamed(old(store.bags), old(store.order), uplink.name).value;
                handled == Some(t) && fault == s.fault && emits == s.emits
                && store.bags == (if s.fault.Some? then old(store.bags)
                                  else old(store.bags)[k := old(store.bags)[k] + Stored(s.fields, DeviceFields(t))])
    {
      var device, f := GetDeviceByName(store, registered, uplink.name);
      if device == null {
        return None, f, [];
      }
      var t: NewHandler := device.dtype;
      handled := Some(t);
      fault, emits := Handlers.ProcessUplink(device, rd);
      if fault.Some? {
        return;
      }
      StoreValuesInStorage(store, device);
    }
  }

  /** `StoreValuesInStorage` of the handler a descriptor just claimed. */
  method StoreDescriptor(store: DeviceStore, device: SimDevice, d: Descriptor)
    requires IsNewSimuDevice(device.dtype) && device.Valid() && store.Valid() && store.Consistent()
    requires device.fields == Introduced(device.dtype, d.id, d.name)
    requires d.id in store.bags && store.bags[d.id] == Claim(map[], device.dtype, d.id, d.name)
    modifies store
    ensures store.Valid() && store.Consistent() && store.order == old(store.order)
    ensures store.bags == old(store.bags)[d.id := DescriptorBag(Some(device.dtype), d)]
  {
    assert device.Id() == d.id;
    StoreValuesInStorage(store, device);
  }

  /** The tick at the bag of `id`: a bag that records a `$type` has its
      handler ticked and stored. `bags` are the bags before the tick. */
  method TickStep(store: DeviceStore, cs: seq<NewHandler>, ghost bags: map<int, Bag>, processed: seq<NewHandler>, id: int)
    returns (next: seq<NewHandler>, fault: Option<Fault>)
    requires store.Valid() && store.Consistent()
    requires id in bags && store.bags == TickStores(bags, processed)
    modifies store
    ensures store.Valid() && store.Consistent() && store.order == old(store.order)
    ensures fault.None? ==>
              next == processed + RecordedType(bags[id]) && store.bags == TickStores(bags, next)
              && forall t :: t in RecordedType(bags[id]) ==> t in cs
    ensures fault.Some? ==>
              fault == Some(InvalidOperationException) && store.bags == old(store.bags)
              && RecordedType(bags[id]) != [] && RecordedType(bags[id])[0] !in cs
  {
    var data := store.bags[id];
    TickStoresType(bags, processed, id);
    if TypeKey in data && data[TypeKey].TypeV? {
      var t := data[TypeKey].t;
      fault := TickDevice(store, cs, t);
      if fault.Some? {
        return processed, fault;
      }
      TickStoresSnoc(bags, processed, t);
      next := processed + [t];
    } else {
      next, fault := processed, None;
    }
  }

  /** One step of the tick: `GetDevice(type)`, the handler's tick and
      `StoreValuesInStorage`. The fresh handler's `Id` is 0. */
  method TickDevice(store: DeviceStore, cs: seq<NewHandler>, t: HandlerType) returns (fault: Option<Fault>)
    requires store.Valid() && store.Consistent()
    modifies store
    ensures store.Valid() && store.Consistent() && store.order == old(store.order)
    ensures t !in cs ==> fault == Some(InvalidOperationException) && store.bags == old(store.bags)
    ensures t in cs ==> fault.None? && IsNewSimuDevice(t)
                        && store.bags == if 0 in old(store.bags)
                                         then old(store.bags)[0 := old(store.bags)[0] + Stored(Defaults(t), DeviceFields(t))]
                                         else old(store.bags)
  {
    var device;
    device, fault := GetDeviceOfType(cs, t);
    if fault.Some? {
      return;
    }
    // `device.ProcessAsync()`: no handler overrides it.
    WalkedInLayout(device.dtype);
    assert device.Id() == 0;
    StoreValuesInStorage(store, device);
  }

  /** The tick's bags after one more processed type. */
  lemma TickStoresSnoc(bags: map<int, Bag>, ts: seq<NewHandler>, t: NewHandler)
    ensures var before := TickStores(bags, ts);
            TickStores(bags, ts + [t])
            == if 0 in bags then before[0 := before[0] + Stored(Defaults(t), DeviceFields(t))] else before
  {
    assert (ts + [t])[..|ts|] == ts;
    if 0 in bags {
      Overwrite(bags, 0, TickBag(bags[0], ts), TickBag(bags[0], ts + [t]));
    }
  }

  /** A second write to the same key replaces the first. */
  lemma Overwrite(m: map<int, Bag>, k: int, a: Bag, b: Bag)
    ensures m[k := a][k := b] == m[k := b]
  {
  }

  /** Enumerating one more id adds that bag's recorded type, if any. */
  lemma RecordedSnoc(bags: map<int, Bag>, order: seq<int>, i: int)
    requires forall j :: 0 <= j < |order| ==> order[j] in bags
    requires 0 <= i < |order|
    ensures var b := bags[order[i]];
            RecordedTypes(bags, order[..i + 1]) == RecordedTypes(bags, order[..i]) + RecordedType(b)
  {
    assert order[..i + 1] == order[..i] + [order[i]];
    RecordedConcat(bags, order[..i], [order[i]]);
    assert [order[i]][1..] == [];
  }

  /** The types recorded before position `i`, followed by a type the bag
      at `i` records, begin the recorded types. */
  lemma TickStopped(bags: map<int, Bag>, order: seq<int>, i: int)
    requires forall j :: 0 <= j < |order| ==> order[j] in bags
    requires 0 <= i < |order| && RecordedType(bags[order[i]]) != []
    ensures var ts := RecordedTypes(bags, order);
            var p := RecordedTypes(bags, order[..i]);
            |p| < |ts| && ts[..|p|] == p && ts[|p|] == RecordedType(bags[order[i]])[0]
  {
    var p := RecordedTypes(bags, order[..i]);
    var x := RecordedType(bags[order[i]]);
    assert order == order[..i] + order[i..];
    RecordedConcat(bags, order[..i], order[i..]);
    assert RecordedTypes(bags, order[i..]) == x + RecordedTypes(bags, order[i + 1..]) by {
      assert order[i..][0] == order[i] && order[i..][1..] == order[i + 1..];
    }
  }

  /** Recorded types distribute over concatenated enumerations. */
  lemma {:induction false} RecordedConcat(bags: map<int, Bag>, a: seq<int>, b: seq<int>)
    requires forall j :: 0 <= j < |a| ==> a[j] in bags
    requires forall j :: 0 <= j < |b| ==> b[j] in bags
    ensures RecordedTypes(bags, a + b) == RecordedTypes(bags, a) + RecordedTypes(bags, b)
  {
    if a == [] {
      assert a + b == b;
    } else {
      assert (a + b)[0] == a[0] && (a + b)[1..] == a[1..] + b;
      RecordedConcat(bags, a[1..], b);
    }
  }

  /** The tick writes walked fields only, so every bag keeps its `$type`. */
  lemma TickStoresType(bags: map<int, Bag>, ts: seq<NewHandler>, id: int)
    requires id in bags
    ensures id in TickStores(bags, ts)
    ensures var b := TickStores(bags, ts)[id];
            (TypeKey in b <==> TypeKey in bags[id]) && (TypeKey in b ==> b[TypeKey] == bags[id][TypeKey])
  {
    if 0 in bags {
      TickBagType(bags[0], ts);
    }
  }

  /** `$type` is not a walked field: the tick never changes it. */
  lemma {:induction false} TickBagType(b: Bag, ts: seq<NewHandler>)
    ensures TypeKey in TickBag(b, ts) <==> TypeKey in b
    ensures TypeKey in b ==> TickBag(b, ts)[TypeKey] == b[TypeKey]
    decreases |ts|
  {
    if ts != [] {
      WalkedInLayout(ts[|ts| - 1]);
      TickBagType(b, ts[..|ts| - 1]);
    }
  }

  /** After a tick that processed any handler, bag 0 holds the initial
      state of the last one: its id is 0 and its name null, so the device
      with id 0 is no longer found by its name. */
  lemma TickForgetsName(b: Bag, ts: seq<NewHandler>)
    requires ts != []
    ensures IdField in TickBag(b, ts) && TickBag(b, ts)[IdField] == IntV(0)
    ensures NameField in TickBag(b, ts) && TickBag(b, ts)[NameField] == Null
    ensures forall name :: !Named(TickBag(b, ts), name)
    ensures var t := ts[|ts| - 1];
            forall n :: n in Names(DeviceFields(t)) ==> n in TickBag(b, ts) && TickBag(b, ts)[n] == InitialValue(t, n)
  {
    var t := ts[|ts| - 1];
    WalkedInLayout(t);
    DefaultsFit(t);
  }

  /** The bag a descriptor leaves under a claimed id records the claiming
      type, id and name, so `GetDevice(name)` finds it, and it resolves to
      a handler holding the introduced state. */
  lemma ClaimedBag(cs: seq<NewHandler>, t: NewHandler, d: Descriptor)
    requires t in cs
    ensures var b := DescriptorBag(Some(t), d);
            Records(b, t) && Named(b, d.name) && BagConsistent(d.id, b)
            && Resolve(cs, Some(b)) == Resolved(t, Introduced(t, d.id, d.name))
  {
    WalkedInLayout(t);
    IntroducedFields(t, d.id, d.name);
    PersistRoundTrip(cs, Claim(map[], t, d.id, d.name), t, Introduced(t, d.id, d.name));
  }

  /** The introduced state is a well-formed handler state that its stored
      walked fields rebuild. */
  lemma IntroducedFields(t: NewHandler, id: int32, name: string)
    ensures WellFormed(t, Introduced(t, id, name))
    ensures Defaults(t) + Stored(Introduced(t, id, name), DeviceFields(t)) == Introduced(t, id, name)
  {
    IntroducedWellFormed(t, id, name);
    WalkedInLayout(t);
    RestoredFields(t, Introduced(t, id, name));
  }

  /** The state a descriptor introduces has every field of its type. */
  lemma IntroducedWellFormed(t: NewHandler, id: int32, name: string)
    ensures WellFormed(t, Introduced(t, id, name))
  {
    WalkedInLayout(t);
    DefaultsFit(t);
    WellFormedUpdate(t, Defaults(t), IdField, IntV(id));
    WellFormedUpdate(t, Defaults(t)[IdField := IntV(id)], NameField, StrV(name));
  }

  /** Storing a handler whose fields came from a bag, then resolving the
      bag again, gives the same handler: an event the handler ignores
      changes nothing a later event can see. Walked values that already
      had their field's type are kept as they were. */
  lemma RedeliverStable(cs: seq<NewHandler>, b: Bag)
    requires Resolve(cs, Some(b)).Resolved?
    ensures var r := Resolve(cs, Some(b));
            var after := b + Stored(r.fields, DeviceFields(r.t));
            Resolve(cs, Some(after)) == r
            && after.Keys == b.Keys + Names(DeviceFields(r.t))
            && forall n :: n in b && n in Names(DeviceFields(r.t)) && Fits(r.t, n, b[n]) ==> after[n] == b[n]
  {
    var r := Resolve(cs, Some(b));
    var t := r.t;
    WalkedInLayout(t);
    assert Records(b, t);
    PersistRoundTrip(cs, b, t, r.fields);
    forall n | n in Layout(t) && n !in Names(DeviceFields(t))
      ensures r.fields[n] == Defaults(t)[n]
    {
      ApplyFieldsValue(t, Defaults(t), DeviceFields(t), b, n);
      DefaultsFit(t);
    }
    RestoredFields(t, r.fields);
    forall n | n in b && n in Names(DeviceFields(t)) && Fits(t, n, b[n])
      ensures r.fields[n] == b[n]
    {
      ApplyFieldsValue(t, Defaults(t), DeviceFields(t), b, n);
    }
  }

  /** A handler that holds its initial values outside the walked fields is
      rebuilt exactly from its stored walked fields. */
  lemma RestoredFields(t: NewHandler, f: Bag)
    requires WellFormed(t, f)
    requires forall n :: n in Layout(t) && n !in Names(DeviceFields(t)) ==> f[n] == Defaults(t)[n]
    ensures Defaults(t) + Stored(f, DeviceFields(t)) == f
  {
    WalkedInLayout(t);
    DefaultsFit(t);
  }
}
