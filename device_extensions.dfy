/** The newer generation's state store (`lwnsim.Devices.Extensions.DeviceExtensions`).
    Handlers are taken to be transient: every resolution builds a fresh instance, and
    what survives between events is a per-device bag in the static
    `_deviceData`, keyed by device id. A bag holds the `$type` of the handler
    that claimed the device and the values of the handler's writable
    instance fields, found by walking the handler's type and its
    `ISimuDevice` base types. */
module DeviceExtensions {

  import opened Wrappers
  import opened Bytes
  import opened DeviceValues
  import Handlers

  /** `_deviceData`: the bag of every device id, and the ids in the order
      they were added, which is the order the dictionary enumerates. */
  class DeviceStore {
    var bags: map<int, Bag>
    var order: seq<int>

    constructor ()
      ensures bags == map[] && order == []
      ensures Valid() && Consistent()
    {
      bags := map[];
      order := [];
    }

    /** `order` lists every id of `bags` once. */
    ghost predicate Valid()
      reads this
    {
      (forall id :: id in bags ==> id in order)
      && (forall i :: 0 <= i < |order| ==> order[i] in bags)
      && (forall i, j :: 0 <= i < j < |order| ==> order[i] != order[j])
    }

    /** A bag's recorded id is its own key, and a named bag records an id. */
    ghost predicate Consistent()
      reads this
    {
      forall id :: id in bags ==> BagConsistent(id, bags[id])
    }
  }

  predicate BagConsistent(id: int, b: Bag) {
    (NameField in b ==> IdField in b) && (IdField in b ==> b[IdField] == IntV(id))
  }

  // ---------------------------------------------------------------------
  // The field walk

  /** The fields of one reflection level that are not `readonly`
      (`IsInitOnly` is skipped), in the order reported. */
  function Writable(fs: seq<FieldDecl>): seq<FieldDecl> {
    if fs == [] then []
    else (if fs[0].readonly then [] else [fs[0]]) + Writable(fs[1..])
  }

  /** `Writable` keeps exactly the fields not marked `readonly`. */
  lemma {:induction false} WritableMembers(fs: seq<FieldDecl>)
    ensures forall i :: 0 <= i < |Writable(fs)| ==> !Writable(fs)[i].readonly
    ensures forall f :: f in Writable(fs) <==> f in fs && !f.readonly
  {
    if fs != [] {
      WritableMembers(fs[1..]);
      assert forall f :: f in fs <==> f == fs[0] || f in fs[1..];
    }
  }

  /** What `GetDeviceFields` collects for a handler of type `t`: the writable
      fields reported for `t`, then for each base type while it is still an
      `ISimuDevice`. */
  function DeviceFields(t: DeviceType): seq<FieldDecl>
    requires IsNewSimuDevice(t)
    decreases Depth(t)
  {
    Writable(ReportedFields(t))
    + (if BaseType(t).Some? && IsNewSimuDevice(BaseType(t).value) then DeviceFields(BaseType(t).value) else [])
  }

  /** The walk collects the payload, the counter of the EM300 variants and
      the `Id` and `Name` backing fields; the EM300 variants report their
      base's internal fields on both levels, so those come twice. */
  lemma DeviceFieldsOf(t: NewHandler)
    ensures t == SensativeStrip ==> DeviceFields(t) == StripWalk
    ensures t != SensativeStrip ==> DeviceFields(t) == VariantWalk
    ensures Names(DeviceFields(t)) == Layout(t) - {LoggerField, ConnectionServiceField, RandomField}
  {
    if t == SensativeStrip {
      StripFields();
    } else {
      VariantFields(t);
    }
  }

  lemma StripFields()
    ensures DeviceFields(SensativeStrip) == StripWalk
    ensures Names(DeviceFields(SensativeStrip)) == {InstanceField, IdField, NameField}
    ensures Names(DeviceFields(SensativeStrip)) == Layout(SensativeStrip) - {LoggerField, ConnectionServiceField, RandomField}
  {
    StripSequence();
    StripNames();
  }

  /** The walk of the Sensative strip, as a list. */
  const StripWalk: seq<FieldDecl> := [FieldDecl(InstanceField, false), FieldDecl(IdField, false), FieldDecl(NameField, false)]

  lemma StripSequence()
    ensures DeviceFields(SensativeStrip) == StripWalk
  {
    BaseFields();
    WritableReported(SensativeStrip);
    DeviceFieldsUnfold(SensativeStrip);
  }

  lemma StripNames()
    ensures Names(StripWalk) == {InstanceField, IdField, NameField}
    ensures Names(StripWalk) == Layout(SensativeStrip) - {LoggerField, ConnectionServiceField, RandomField}
  {
    NamesOf3(StripWalk);
  }

  lemma VariantFields(t: NewHandler)
    requires t != SensativeStrip
    ensures DeviceFields(t) == VariantWalk
    ensures Names(DeviceFields(t)) == {UplinkCounterField, InstanceField, IdField, NameField}
    ensures Names(DeviceFields(t)) == Layout(t) - {LoggerField, ConnectionServiceField, RandomField}
  {
    VariantSequence(t);
    VariantNames();
  }

  /** The walk of an EM300 variant, as a list. */
  const VariantWalk: seq<FieldDecl> :=
    [FieldDecl(UplinkCounterField, false), FieldDecl(InstanceField, false),
     FieldDecl(UplinkCounterField, false), FieldDecl(InstanceField, false),
     FieldDecl(IdField, false), FieldDecl(NameField, false)]

  lemma VariantSequence(t: NewHandler)
    requires t != SensativeStrip
    ensures DeviceFields(t) == VariantWalk
  {
    Em300Fields();
    WritableReported(t);
    DeviceFieldsUnfold(t);
  }

  lemma VariantNames()
    ensures Names(VariantWalk) == {UplinkCounterField, InstanceField, IdField, NameField}
    ensures Names(VariantWalk) == Layout(Em300ThOat) - {LoggerField, ConnectionServiceField, RandomField}
    ensures Names(VariantWalk) == Layout(Em300ThRot) - {LoggerField, ConnectionServiceField, RandomField}
  {
    var base := [FieldDecl(IdField, false), FieldDecl(NameField, false)];
    var own := [FieldDecl(UplinkCounterField, false), FieldDecl(InstanceField, false)];
    assert VariantWalk == own + (own + base);
    NamesConcat(own, own + base);
    NamesConcat(own, base);
    NamesOf2(own);
    NamesOf2(base);
  }

  lemma BaseFields()
    ensures DeviceFields(SimDeviceBase) == [FieldDecl(IdField, false), FieldDecl(NameField, false)]
  {
    WritableReported(SimDeviceBase);
  }

  lemma Em300Fields()
    ensures DeviceFields(Em300th) == [FieldDecl(UplinkCounterField, false), FieldDecl(InstanceField, false),
                                      FieldDecl(IdField, false), FieldDecl(NameField, false)]
  {
    WritableReported(Em300th);
    BaseFields();
  }

  /** The writable fields of each newer reflection level. */
  lemma WritableReported(t: DeviceType)
    requires IsNewSimuDevice(t)
    ensures t == SimDeviceBase ==> Writable(ReportedFields(t)) == [FieldDecl(IdField, false), FieldDecl(NameField, false)]
    ensures t == SensativeStrip ==> Writable(ReportedFields(t)) == [FieldDecl(InstanceField, false)]
    ensures t != SimDeviceBase && t != SensativeStrip ==>
              Writable(ReportedFields(t)) == [FieldDecl(UplinkCounterField, false), FieldDecl(InstanceField, false)]
  {
    var rs := ReportedFields(t);
    if t == SimDeviceBase {
      WritableAll(rs);
    } else {
      var own := rs[3..];
      assert rs == ServiceFields + own;
      WritableConcat(ServiceFields, own);
      WritableServices();
      WritableAll(own);
    }
  }

  lemma WritableServices()
    ensures Writable(ServiceFields) == []
  {
    var s := ServiceFields;
    assert s[1..][1..][1..] == [];
  }

  /** `Writable` distributes over concatenation. */
  lemma {:induction false} WritableConcat(a: seq<FieldDecl>, b: seq<FieldDecl>)
    ensures Writable(a + b) == Writable(a) + Writable(b)
  {
    if a == [] {
      assert a + b == b;
    } else {
      assert (a + b)[0] == a[0];
      assert (a + b)[1..] == a[1..] + b;
      WritableConcat(a[1..], b);
    }
  }

  lemma {:induction false} WritableAll(fs: seq<FieldDecl>)
    requires forall i :: 0 <= i < |fs| ==> !fs[i].readonly
    ensures Writable(fs) == fs
  {
    if fs != [] {
      WritableAll(fs[1..]);
    }
  }

  /** `GetDeviceFields`: a do-while over the type and its `ISimuDevice`
      base types, skipping `readonly` fields. */
  method GetDeviceFields(device: SimDevice) returns (all: seq<FieldDecl>)
    requires IsNewSimuDevice(device.dtype)
    ensures all == DeviceFields(device.dtype)
  {
    all := [];
    var ty: DeviceType := device.dtype;
    ghost var total := DeviceFields(device.dtype);
    while true
      invariant IsNewSimuDevice(ty)
      invariant all + DeviceFields(ty) == total
      decreases Depth(ty)
    {
      ghost var before := all;
      all := AppendWritable(all, ReportedFields(ty));
      var b := BaseType(ty);
      ghost var rest := if b.Some? && IsNewSimuDevice(b.value) then DeviceFields(b.value) else [];
      DeviceFieldsUnfold(ty);
      Regroup(before, Writable(ReportedFields(ty)), rest);
      if !(b.Some? && IsNewSimuDevice(b.value)) {
        return;
      }
      ty := b.value;
    }
  }

  /** The inner loop of `GetDeviceFields`: the fields of one level that are
      not `readonly`, appended in order. */
  method AppendWritable(acc: seq<FieldDecl>, fields: seq<FieldDecl>) returns (all: seq<FieldDecl>)
    ensures all == acc + Writable(fields)
  {
    all := acc;
    var j := 0;
    while j < |fields|
      invariant 0 <= j <= |fields|
      invariant all + Writable(fields[j..]) == acc + Writable(fields)
    {
      WritableStep(fields, j);
      Regroup(all, if fields[j].readonly then [] else [fields[j]], Writable(fields[j + 1..]));
      if !fields[j].readonly {
        all := all + [fields[j]];
      }
      j := j + 1;
    }
    assert fields[j..] == [];
  }

  /** One step of the walk over a level's fields. */
  lemma WritableStep(fs: seq<FieldDecl>, j: int)
    requires 0 <= j < |fs|
    ensures Writable(fs[j..]) == (if fs[j].readonly then [] else [fs[j]]) + Writable(fs[j + 1..])
  {
    assert fs[j..][1..] == fs[j + 1..];
  }

  /** Concatenation regrouped. */
  lemma Regroup(a: seq<FieldDecl>, b: seq<FieldDecl>, c: seq<FieldDecl>)
    ensures a + (b + c) == (a + b) + c
    ensures c == [] ==> a + (b + c) == a + b
  {
  }

  /** One level of the walk. */
  lemma DeviceFieldsUnfold(t: DeviceType)
    requires IsNewSimuDevice(t)
    ensures DeviceFields(t) == Writable(ReportedFields(t)) + (if BaseType(t).Some? && IsNewSimuDevice(BaseType(t).value) then DeviceFields(BaseType(t).value) else [])
  {
  }

  // ---------------------------------------------------------------------
  // Applying and storing values

  /** `ApplyValuesFromStorage` on fields `f` of a handler of type `t`: for
      each walked field, in order, whose name the bag has, `SetValue` with the
      bag's value. The flag says whether a value of the wrong type raised an
      `ArgumentException`; the fields are the state at that point. */
  function ApplyFields(t: DeviceType, f: Bag, fs: seq<FieldDecl>, data: Bag): (Bag, bool)
    decreases |fs|
  {
    if fs == [] then (f, false)
    else
      var n := fs[0].name;
      if n !in data then ApplyFields(t, f, fs[1..], data)
      else match Assign(t, n, data[n])
        case None => (f, true)
        case Some(v) => ApplyFields(t, f[n := v], fs[1..], data)
  }

  /** Applying a bag whose walked entries all have their fields' types never
      raises, and sets exactly those entries. */
  lemma ApplyFieldsFitting(t: DeviceType, f: Bag, fs: seq<FieldDecl>, data: Bag)
    requires forall n :: n in Names(fs) && n in data ==> Fits(t, n, data[n])
    ensures ApplyFields(t, f, fs, data) == (f + Stored(data, fs), false)
  {
    ApplyFieldsRaiseFree(t, f, fs, data);
    var r := ApplyFields(t, f, fs, data).0;
    var m := Stored(data, fs);
    forall n
      ensures n in r <==> n in f + m
      ensures n in r ==> r[n] == (f + m)[n]
    {
      ApplyFieldsValue(t, f, fs, data, n);
    }
    assert r == f + m;
  }

  /** Applying a bag whose walked entries all fit raises nothing. */
  lemma {:induction false} ApplyFieldsRaiseFree(t: DeviceType, f: Bag, fs: seq<FieldDecl>, data: Bag)
    requires forall n :: n in Names(fs) && n in data ==> Fits(t, n, data[n])
    ensures !ApplyFields(t, f, fs, data).1
    decreases |fs|
  {
    if fs != [] {
      var k := fs[0].name;
      assert Names(fs) == {k} + Names(fs[1..]);
      if k !in data {
        ApplyFieldsRaiseFree(t, f, fs[1..], data);
      } else {
        ApplyFieldsRaiseFree(t, f[k := data[k]], fs[1..], data);
      }
    }
  }

  /** A value of the wrong type, in a bag entry that the walk reaches before
      any other such entry, raises. */
  lemma {:induction false} ApplyFieldsMismatch(t: DeviceType, f: Bag, fs: seq<FieldDecl>, data: Bag, k: int)
    requires 0 <= k < |fs| && fs[k].name in data && Assign(t, fs[k].name, data[fs[k].name]).None?
    ensures ApplyFields(t, f, fs, data).1
    decreases |fs|
  {
    var n := fs[0].name;
    if k > 0 && !(n in data && Assign(t, n, data[n]).None?) {
      assert fs[1..][k - 1] == fs[k];
      ApplyFieldsMismatch(t, if n in data then f[n := Assign(t, n, data[n]).value] else f, fs[1..], data, k - 1);
    }
  }

  /** `StoreValuesInStorage` on bag `b`: each walked field's current value
      is written under its name. */
  function StoreFields(b: Bag, f: Bag, fs: seq<FieldDecl>): Bag
    requires Names(fs) <= f.Keys
    decreases |fs|
  {
    if fs == [] then b else StoreFields(b[fs[0].name := f[fs[0].name]], f, fs[1..])
  }

  /** Storing overwrites exactly the walked names with the handler's values. */
  lemma {:induction false} StoreFieldsClosed(b: Bag, f: Bag, fs: seq<FieldDecl>)
    requires Names(fs) <= f.Keys
    ensures StoreFields(b, f, fs) == b + Stored(f, fs)
    decreases |fs|
  {
    if fs != [] {
      StoreFieldsClosed(b[fs[0].name := f[fs[0].name]], f, fs[1..]);
    }
  }

  /** `ApplyValuesFromStorage(device, data)` with `None` for a null bag. */
  method ApplyValuesFromStorage(device: SimDevice, data: Option<Bag>) returns (fault: Option<Fault>)
    requires IsNewSimuDevice(device.dtype) && device.Valid()
    modifies device
    ensures data.None? ==> fault == Some(ArgumentNullException) && device.fields == old(device.fields)
    ensures data.Some? ==>
              var r := ApplyFields(device.dtype, old(device.fields), DeviceFields(device.dtype), data.value);
              device.fields == r.0 && (r.1 ==> fault == Some(ArgumentException)) && (!r.1 ==> fault.None?)
    ensures device.Valid()
  {
    if data.None? {
      return Some(ArgumentNullException);
    }
    var fields := GetDeviceFields(device);
    WalkedInLayout(device.dtype);
    fault := SetEach(device, fields, data.value);
  }

  /** The `foreach` of `ApplyValuesFromStorage`: `SetValue` for every
      listed field the bag has, in order, until a value of the wrong type
      raises. */
  method SetEach(device: SimDevice, fields: seq<FieldDecl>, data: Bag) returns (fault: Option<Fault>)
    requires device.Valid() && Names(fields) <= Layout(device.dtype)
    modifies device
    ensures var r := ApplyFields(device.dtype, old(device.fields), fields, data);
            device.fields == r.0 && (r.1 ==> fault == Some(ArgumentException)) && (!r.1 ==> fault.None?)
    ensures device.Valid()
  {
    var t := device.dtype;
    NamesIndex(fields);
    var i := 0;
    while i < |fields|
      invariant 0 <= i <= |fields|
      invariant ApplyFields(t, device.fields, fields[i..], data) == ApplyFields(t, old(device.fields), fields, data)
      invariant device.Valid()
    {
      var name := fields[i].name;
      ApplyStep(t, device.fields, fields, i, data);
      if name in data {
        var v := Assign(t, name, data[name]);
        if v.None? {
          return Some(ArgumentException);
        }
        AssignIdempotent(t, name, data[name]);
        WellFormedUpdate(t, device.fields, name, v.value);
        device.fields := device.fields[name := v.value];
      }
      i := i + 1;
    }
    assert fields[i..] == [];
    fault := None;
  }

  /** One step of `ApplyFields` at position `i` of the walk. */
  lemma ApplyStep(t: DeviceType, f: Bag, fs: seq<FieldDecl>, i: int, data: Bag)
    requires 0 <= i < |fs|
    ensures var n := fs[i].name;
            ApplyFields(t, f, fs[i..], data)
            == if n !in data then ApplyFields(t, f, fs[i + 1..], data)
               else if Assign(t, n, data[n]).None? then (f, true)
               else ApplyFields(t, f[n := Assign(t, n, data[n]).value], fs[i + 1..], data)
  {
    assert fs[i..][0] == fs[i] && fs[i..][1..] == fs[i + 1..];
  }

  /** The walk only reaches fields the handler has, and reaches its `Id`
      and `Name`. */
  lemma WalkedInLayout(t: NewHandler)
    ensures Names(DeviceFields(t)) <= Layout(t)
    ensures IdField in Names(DeviceFields(t)) && NameField in Names(DeviceFields(t))
    ensures TypeKey !in Names(DeviceFields(t))
  {
    DeviceFieldsOf(t);
  }

  /** Every listed field's name is among the names of the list. */
  lemma {:induction false} NamesIndex(fs: seq<FieldDecl>)
    ensures forall i :: 0 <= i < |fs| ==> fs[i].name in Names(fs)
  {
    if fs != [] {
      NamesIndex(fs[1..]);
      assert forall i :: 1 <= i < |fs| ==> fs[i] == fs[1..][i - 1];
    }
  }

  /** `StoreValuesInStorage(device)`: writes the walked fields into the bag
      of the device's `Id`; without such a bag nothing happens. */
  method StoreValuesInStorage(store: DeviceStore, device: SimDevice)
    requires IsNewSimuDevice(device.dtype) && device.Valid()
    requires store.Valid() && store.Consistent()
    modifies store
    ensures device.Id() in old(store.bags) ==>
              store.bags == old(store.bags)[device.Id() := old(store.bags)[device.Id()] + Stored(device.fields, DeviceFields(device.dtype))]
    ensures device.Id() !in old(store.bags) ==> store.bags == old(store.bags)
    ensures store.order == old(store.order)
    ensures store.Valid() && store.Consistent()
  {
    var id := device.Id();
    if id !in store.bags {
      return;
    }
    var fields := GetDeviceFields(device);
    WalkedInLayout(device.dtype);
    var bag := store.bags[id];
    var data := StoreEach(bag, device.fields, fields);
    assert device.fields[IdField] == IntV(id);
    StoredConsistent(id, bag, device.fields, fields);
    store.bags := store.bags[id := data];
  }

  /** The `foreach` of `StoreValuesInStorage`: `data[field.Name] =
      field.GetValue(device)` for every walked field, in order. */
  method StoreEach(bag: Bag, f: Bag, fields: seq<FieldDecl>) returns (data: Bag)
    requires Names(fields) <= f.Keys
    ensures data == bag + Stored(f, fields)
  {
    data := bag;
    var i := 0;
    assert fields[i..] == fields;
    while i < |fields|
      invariant 0 <= i <= |fields|
      invariant Names(fields[i..]) <= f.Keys
      invariant StoreFields(data, f, fields[i..]) == StoreFields(bag, f, fields)
    {
      StoreStep(data, f, fields, i);
      data := data[fields[i].name := f[fields[i].name]];
      i := i + 1;
    }
    assert fields[i..] == [];
    StoreFieldsClosed(bag, f, fields);
  }

  /** The values `StoreValuesInStorage` writes: every walked field's value
      under its name. */
  function Stored(f: Bag, fs: seq<FieldDecl>): (m: Bag)
    ensures m.Keys == Names(fs) * f.Keys
    ensures forall n :: n in m ==> m[n] == f[n]
  {
    map n | n in Names(fs) && n in f :: f[n]
  }

  /** Storing a handler that carries the bag's id keeps the bag consistent. */
  lemma StoredConsistent(id: int, b: Bag, f: Bag, fs: seq<FieldDecl>)
    requires BagConsistent(id, b)
    requires IdField in Names(fs) && IdField in f && f[IdField] == IntV(id)
    ensures BagConsistent(id, b + Stored(f, fs))
  {
  }

  /** One step of `StoreFields` at position `i` of the walk. */
  lemma StoreStep(b: Bag, f: Bag, fs: seq<FieldDecl>, i: int)
    requires 0 <= i < |fs| && Names(fs) <= f.Keys
    ensures Names(fs[i..]) <= f.Keys && Names(fs[i + 1..]) <= f.Keys && fs[i].name in f
    ensures StoreFields(b, f, fs[i..]) == StoreFields(b[fs[i].name := f[fs[i].name]], f, fs[i + 1..])
  {
    assert fs[i..][0] == fs[i] && fs[i..][1..] == fs[i + 1..];
    NamesSlice(fs, i);
    NamesSlice(fs, i + 1);
  }

  /** The names of a suffix are among the names of the list. */
  lemma NamesSlice(fs: seq<FieldDecl>, i: int)
    requires 0 <= i <= |fs|
    ensures Names(fs[i..]) <= Names(fs)
    ensures i < |fs| ==> fs[i].name in Names(fs)
  {
    assert fs == fs[..i] + fs[i..];
    NamesConcat(fs[..i], fs[i..]);
    if i < |fs| {
      assert fs[i..][0] == fs[i];
    }
  }

  /** `GetOrCreateDeviceData(deviceId)`; `None` stands for null, and the bag
      returned is the one the store holds for the id. */
  method GetOrCreateDeviceData(store: DeviceStore, deviceId: Option<int>) returns (data: Option<Bag>)
    requires store.Valid() && store.Consistent()
    modifies store
    ensures deviceId.None? ==> data.None? && store.bags == old(store.bags) && store.order == old(store.order)
    ensures deviceId.Some? && deviceId.value in old(store.bags) ==>
              data == Some(old(store.bags)[deviceId.value]) && store.bags == old(store.bags) && store.order == old(store.order)
    ensures deviceId.Some? && deviceId.value !in old(store.bags) ==>
              data == Some(map[]) && store.bags == old(store.bags)[deviceId.value := map[]]
              && store.order == old(store.order) + [deviceId.value]
    ensures store.Valid() && store.Consistent()
  {
    if deviceId.None? {
      return None;
    }
    var id := deviceId.value;
    if id in store.bags {
      return Some(store.bags[id]);
    }
    store.bags := store.bags[id := map[]];
    store.order := store.order + [id];
    data := Some(store.bags[id]);
  }

  // ---------------------------------------------------------------------
  // Resolving handlers

  /** The bag a claim writes: `$type`, id and name over what was there. */
  function Claim(b: Bag, t: NewHandler, id: int32, name: string): Bag {
    b[IdField := IntV(id)][NameField := StrV(name)][TypeKey := TypeV(t)]
  }

  /** `DeviceCanHandle(device, id, name, data)` on the bag of `id`: a bag that
      records an id is taken as handled; otherwise the candidate gets the id
      and name applied and, if `CanHandle()` then holds, the bag records the
      claim. */
  method DeviceCanHandle(store: DeviceStore, device: SimDevice, id: int32, name: string) returns (claimed: bool)
    requires IsNewSimuDevice(device.dtype) && device.Valid()
    requires store.Valid() && store.Consistent() && id in store.bags
    modifies store, device
    ensures IdField in old(store.bags)[id] ==>
              claimed && store.bags == old(store.bags) && device.fields == old(device.fields)
    ensures IdField !in old(store.bags)[id] ==>
              device.fields == old(device.fields)[IdField := IntV(id)][NameField := StrV(name)]
              && (claimed <==> Handlers.CanHandle(device.dtype, name))
              && store.bags == (if claimed then old(store.bags)[id := Claim(old(store.bags)[id], device.dtype, id, name)]
                                else old(store.bags))
    ensures store.order == old(store.order)
    ensures store.Valid() && store.Consistent() && device.Valid()
  {
    var data := store.bags[id];
    if IdField in data {
      return true;
    }
    ApplyTemporary(device, id, name);
    assert device.Name() == Some(name);
    if !Handlers.CanHandle(device.dtype, device.Name().value) {
      return false;
    }
    data := data[IdField := IntV(id)];
    data := data[NameField := StrV(name)];
    data := data[TypeKey := TypeV(device.dtype)];
    assert BagConsistent(id, data);
    store.bags := store.bags[id := data];
    claimed := true;
  }

  /** The temporary bag `{ Id, Name }` of `DeviceCanHandle` applied to the
      candidate: exactly those two fields change, and nothing raises. */
  method ApplyTemporary(device: SimDevice, id: int32, name: string)
    requires IsNewSimuDevice(device.dtype) && device.Valid()
    modifies device
    ensures device.fields == old(device.fields)[IdField := IntV(id)][NameField := StrV(name)]
    ensures device.Valid()
  {
    var tempData := map[IdField := IntV(id), NameField := StrV(name)];
    ApplyIdName(device.dtype, device.fields, id, name, tempData);
    var fault := ApplyValuesFromStorage(device, Some(tempData));
  }

  /** Applying a bag that holds an id, a name and at most a `$type` sets
      those two fields and raises nothing. */
  lemma ApplyIdName(t: NewHandler, f: Bag, id: int32, name: string, data: Bag)
    requires data.Keys <= {IdField, NameField, TypeKey}
    requires IdField in data && data[IdField] == IntV(id) && NameField in data && data[NameField] == StrV(name)
    ensures ApplyFields(t, f, DeviceFields(t), data) == (f[IdField := IntV(id)][NameField := StrV(name)], false)
  {
    WalkedInLayout(t);
    ApplyIdNameOver(t, f, DeviceFields(t), id, name, data);
  }

  /** `ApplyIdName` for any walk that reaches `Id` and `Name` but not `$type`. */
  lemma ApplyIdNameOver(t: DeviceType, f: Bag, fs: seq<FieldDecl>, id: int32, name: string, data: Bag)
    requires IdField in Names(fs) && NameField in Names(fs) && TypeKey !in Names(fs)
    requires data.Keys <= {IdField, NameField, TypeKey}
    requires IdField in data && data[IdField] == IntV(id) && NameField in data && data[NameField] == StrV(name)
    ensures ApplyFields(t, f, fs, data) == (f[IdField := IntV(id)][NameField := StrV(name)], false)
  {
    ApplyFieldsRaiseFree(t, f, fs, data);
    var r := ApplyFields(t, f, fs, data).0;
    var g := f[IdField := IntV(id)][NameField := StrV(name)];
    forall n
      ensures n in r <==> n in g
      ensures n in r ==> r[n] == g[n]
    {
      ApplyFieldsValue(t, f, fs, data, n);
    }
    assert r == g;
  }

  /** The first candidate, in registration order, whose `CanHandle()` holds
      for `name`: what `Any` stops at. */
  function FirstClaimant(cs: seq<NewHandler>, name: string): (r: Option<NewHandler>)
    ensures r.None? <==> forall i :: 0 <= i < |cs| ==> !Handlers.CanHandle(cs[i], name)
    ensures r.Some? ==> exists k :: 0 <= k < |cs| && cs[k] == r.value && Handlers.CanHandle(cs[k], name)
                                    && forall i :: 0 <= i < k ==> !Handlers.CanHandle(cs[i], name)
  {
    if cs == [] then None
    else if Handlers.CanHandle(cs[0], name) then Some(cs[0])
    else
      var r := FirstClaimant(cs[1..], name);
      assert forall i :: 1 <= i < |cs| ==> cs[i] == cs[1..][i - 1];
      if r.Some? then
        var k :| 0 <= k < |cs[1..]| && cs[1..][k] == r.value && Handlers.CanHandle(cs[1..][k], name)
                 && forall i :: 0 <= i < k ==> !Handlers.CanHandle(cs[1..][i], name);
        assert cs[k + 1] == r.value && forall i :: 0 <= i < k + 1 ==> !Handlers.CanHandle(cs[i], name);
        r
      else r
  }

  /** The candidates before `i + 1` claim nothing when those before `i` and
      the one at `i` do not. */
  lemma NoClaimExtends(cs: seq<NewHandler>, name: string, i: int)
    requires 0 <= i < |cs| && !Handlers.CanHandle(cs[i], name)
    requires forall j :: 0 <= j < i ==> !Handlers.CanHandle(cs[j], name)
    ensures forall j :: 0 <= j < i + 1 ==> !Handlers.CanHandle(cs[j], name)
  {
  }

  /** The first claimant is a candidate. */
  lemma FirstClaimantIn(cs: seq<NewHandler>, name: string)
    requires FirstClaimant(cs, name).Some?
    ensures FirstClaimant(cs, name).value in cs
  {
  }

  /** The first claimant is determined by any candidate that claims the
      name after none before it did. */
  lemma {:induction false} FirstClaimantAt(cs: seq<NewHandler>, name: string, k: int)
    requires 0 <= k < |cs| && Handlers.CanHandle(cs[k], name)
    requires forall i :: 0 <= i < k ==> !Handlers.CanHandle(cs[i], name)
    ensures FirstClaimant(cs, name) == Some(cs[k])
  {
    var r := FirstClaimant(cs, name);
    var k' :| 0 <= k' < |cs| && cs[k'] == r.value && Handlers.CanHandle(cs[k'], name)
              && forall i :: 0 <= i < k' ==> !Handlers.CanHandle(cs[i], name);
    assert !(k' < k) && !(k < k');
  }

  /** What resolving a bag gives: no handler, a fresh handler of the
      recorded type with the bag applied, or an exception. */
  datatype Resolution = NoDevice | Resolved(t: NewHandler, fields: Bag) | Raised(fault: Fault)

  /** `GetDevice(data)` with the registered handler types `cs`: a bag that
      records an `ISimuDevice` type gets a fresh instance of it (the first
      registered one; `InvalidOperationException` if none is) with the bag
      applied. */
  function Resolve(cs: seq<NewHandler>, data: Option<Bag>): (r: Resolution)
    ensures r.Resolved? ==> r.t in cs && WellFormed(r.t, r.fields)
  {
    if data.None? then NoDevice
    else if TypeKey !in data.value || !data.value[TypeKey].TypeV? || !IsNewSimuDevice(data.value[TypeKey].t) then NoDevice
    else
      var t: NewHandler := data.value[TypeKey].t;
      if t !in cs then Raised(InvalidOperationException)
      else
        var r := ApplyFields(t, Defaults(t), DeviceFields(t), data.value);
        if r.1 then Raised(ArgumentException)
        else
          DefaultsFit(t);
          WalkedInLayout(t);
          ApplyFieldsWellFormed(t, Defaults(t), DeviceFields(t), data.value);
          Resolved(t, r.0)
  }

  /** Applying a bag that raised nothing keeps a handler's fields
      well-formed: `SetValue` only ever stores values of the field's type. */
  lemma {:induction false} ApplyFieldsWellFormed(t: HandlerType, f: Bag, fs: seq<FieldDecl>, data: Bag)
    requires WellFormed(t, f) && Names(fs) <= Layout(t) && !ApplyFields(t, f, fs, data).1
    ensures WellFormed(t, ApplyFields(t, f, fs, data).0)
    decreases |fs|
  {
    if fs != [] {
      var n := fs[0].name;
      assert Names(fs) == {n} + Names(fs[1..]);
      if n !in data {
        ApplyFieldsWellFormed(t, f, fs[1..], data);
      } else {
        var v := Assign(t, n, data[n]).value;
        WellFormedUpdate(t, f, n, v);
        ApplyFieldsWellFormed(t, f[n := v], fs[1..], data);
      }
    }
  }

  /** The device and exception a method returns match a resolution. */
  ghost predicate Delivers(device: SimDevice?, fault: Option<Fault>, r: Resolution)
    reads device
  {
    match r
    case NoDevice => device == null && fault.None?
    case Resolved(t, f) => device != null && device.dtype == t && device.fields == f && fault.None?
    case Raised(e) => device == null && fault == Some(e)
  }

  /** `GetDevice(type)`: the first registered handler of exactly that type,
      freshly built; `First` raises `InvalidOperationException` when there
      is none. */
  method GetDeviceOfType(cs: seq<NewHandler>, t: HandlerType) returns (device: SimDevice?, fault: Option<Fault>)
    ensures t in cs ==> fault.None? && device != null && fresh(device) && device.dtype == t && device.fields == Defaults(t)
    ensures t !in cs ==> fault == Some(InvalidOperationException) && device == null
    ensures device != null ==> device.Valid()
  {
    var i := 0;
    while i < |cs|
      invariant 0 <= i <= |cs|
      invariant forall j :: 0 <= j < i ==> cs[j] != t
    {
      if cs[i] == t {
        device := new SimDevice(cs[i]);
        return device, None;
      }
      i := i + 1;
    }
    return null, Some(InvalidOperationException);
  }

  /** `GetDevice(data)`; `None` stands for a null bag. */
  method GetDeviceFromData(cs: seq<NewHandler>, data: Option<Bag>) returns (device: SimDevice?, fault: Option<Fault>)
    ensures Delivers(device, fault, Resolve(cs, data))
    ensures device != null ==> fresh(device) && device.Valid()
  {
    if data.None? {
      return null, None;
    }
    if TypeKey !in data.value || !data.value[TypeKey].TypeV? || !IsNewSimuDevice(data.value[TypeKey].t) {
      return null, None;
    }
    device, fault := GetDeviceOfType(cs, data.value[TypeKey].t);
    if fault.Some? {
      return;
    }
    fault := ApplyValuesFromStorage(device, data);
    if fault.Some? {
      device := null;
    }
  }

  /** A claimed bag resolves to a fresh handler of the claiming type that
      carries the claimed id and name and otherwise its initial values. */
  lemma ResolveClaim(cs: seq<NewHandler>, t: NewHandler, id: int32, name: string)
    requires t in cs
    ensures Resolve(cs, Some(Claim(map[], t, id, name))) == Resolved(t, Defaults(t)[IdField := IntV(id)][NameField := StrV(name)])
  {
    ApplyIdName(t, Defaults(t), id, name, Claim(map[], t, id, name));
  }

  /** `GetDevice(id, name)`: only a device id never seen before is offered
      to the candidates; its bag is created either way, and the first
      candidate that claims the name records the claim and is returned,
      resolved from the bag. */
  method GetDeviceById(store: DeviceStore, cs: seq<NewHandler>, id: int32, name: string)
    returns (device: SimDevice?, fault: Option<Fault>)
    requires store.Valid() && store.Consistent()
    modifies store
    ensures id in old(store.bags) ==>
              device == null && fault.None? && store.bags == old(store.bags) && store.order == old(store.order)
    ensures id !in old(store.bags) ==> store.order == old(store.order) + [id]
    ensures id !in old(store.bags) && FirstClaimant(cs, name).None? ==>
              device == null && fault.None? && store.bags == old(store.bags)[id := map[]]
    ensures id !in old(store.bags) && FirstClaimant(cs, name).Some? ==>
              var t := FirstClaimant(cs, name).value;
              store.bags == old(store.bags)[id := Claim(map[], t, id, name)]
              && Delivers(device, fault, Resolve(cs, Some(Claim(map[], t, id, name))))
              && device != null && device.dtype == t && device.fields == Defaults(t)[IdField := IntV(id)][NameField := StrV(name)]
    ensures device != null ==> fresh(device) && device.Valid()
    ensures store.Valid() && store.Consistent()
  {
    if id in store.bags {
      return null, None;
    }
    var data := GetOrCreateDeviceData(store, Some(id));
    // `ThrowIfNull(data)` cannot fire: the bag was just created.
    ghost var created := store.bags;
    var claimed := AnyCanHandle(store, cs, id, name);
    if !claimed {
      return null, None;
    }
    ghost var claim := Claim(map[], FirstClaimant(cs, name).value, id, name);
    assert created[id := claim] == old(store.bags)[id := claim];
    FirstClaimantIn(cs, name);
    ResolveClaim(cs, FirstClaimant(cs, name).value, id, name);
    device, fault := GetDeviceFromData(cs, Some(store.bags[id]));
  }

  /** `GetServices<ISimuDevice>().Any(service => DeviceCanHandle(...))` on a
      fresh, empty bag: the candidates are built and offered in registration
      order until one claims the name, and that one's claim is recorded. */
  method AnyCanHandle(store: DeviceStore, cs: seq<NewHandler>, id: int32, name: string) returns (claimed: bool)
    requires store.Valid() && store.Consistent() && id in store.bags && store.bags[id] == map[]
    modifies store
    ensures claimed <==> FirstClaimant(cs, name).Some?
    ensures !claimed ==> store.bags == old(store.bags)
    ensures claimed ==> store.bags == old(store.bags)[id := Claim(map[], FirstClaimant(cs, name).value, id, name)]
    ensures store.order == old(store.order)
    ensures store.Valid() && store.Consistent()
  {
    var i := 0;
    while i < |cs|
      invariant 0 <= i <= |cs|
      invariant store.bags == old(store.bags) && store.order == old(store.order)
      invariant forall j :: 0 <= j < i ==> !Handlers.CanHandle(cs[j], name)
    {
      var candidate := new SimDevice(cs[i]);
      claimed := DeviceCanHandle(store, candidate, id, name);
      if claimed {
        FirstClaimantAt(cs, name, i);
        return;
      }
      NoClaimExtends(cs, name, i);
      i := i + 1;
    }
    claimed := false;
  }

  /** A bag that records `name` as the device name. */
  predicate Named(b: Bag, name: string) {
    NameField in b && b[NameField] == StrV(name)
  }

  /** The first id, in enumeration order, whose bag records `name`. */
  function FirstNamed(bags: map<int, Bag>, order: seq<int>, name: string): (r: Option<int>)
    requires forall i :: 0 <= i < |order| ==> order[i] in bags
    ensures r.None? <==> forall i :: 0 <= i < |order| ==> !Named(bags[order[i]], name)
    ensures r.Some? ==> exists k :: 0 <= k < |order| && order[k] == r.value && Named(bags[order[k]], name)
                                    && forall i :: 0 <= i < k ==> !Named(bags[order[i]], name)
  {
    if order == [] then None
    else if Named(bags[order[0]], name) then Some(order[0])
    else
      var r := FirstNamed(bags, order[1..], name);
      assert forall i :: 1 <= i < |order| ==> order[i] == order[1..][i - 1];
      if r.Some? then
        var k :| 0 <= k < |order[1..]| && order[1..][k] == r.value && Named(bags[order[1..][k]], name)
                 && forall i :: 0 <= i < k ==> !Named(bags[order[1..][i]], name);
        assert order[k + 1] == r.value && forall i :: 0 <= i < k + 1 ==> !Named(bags[order[i]], name);
        r
      else r
  }

  /** `GetDevice(name)`: the handler resolved from the first bag that
      records the name; no handler when none does. */
  method GetDeviceByName(store: DeviceStore, cs: seq<NewHandler>, name: string)
    returns (device: SimDevice?, fault: Option<Fault>)
    requires store.Valid() && store.Consistent()
    ensures FirstNamed(store.bags, store.order, name).None? ==> device == null && fault.None?
    ensures FirstNamed(store.bags, store.order, name).Some? ==>
              Delivers(device, fault, Resolve(cs, Some(store.bags[FirstNamed(store.bags, store.order, name).value])))
    ensures device != null ==> fresh(device) && device.Valid()
    ensures device != null ==> device.Id() == FirstNamed(store.bags, store.order, name).value
  {
    var i := 0;
    while i < |store.order|
      invariant 0 <= i <= |store.order|
      invariant forall j :: 0 <= j < i ==> !Named(store.bags[store.order[j]], name)
    {
      var data := store.bags[store.order[i]];
      if NameField in data && data[NameField].StrV? && data[NameField].s == name {
        assert FirstNamed(store.bags, store.order, name) == Some(store.order[i]) by {
          FirstNamedAt(store.bags, store.order, name, i);
        }
        device, fault := GetDeviceFromData(cs, Some(data));
        if device != null {
          assert BagConsistent(store.order[i], data);
          WalkedInLayout(device.dtype);
          ApplyFieldsValue(device.dtype, Defaults(device.dtype), DeviceFields(device.dtype), data, IdField);
        }
        return;
      }
      i := i + 1;
    }
    return null, None;
  }

  /** The first named bag is determined by any bag that records the name
      after none before it did. */
  lemma {:induction false} FirstNamedAt(bags: map<int, Bag>, order: seq<int>, name: string, k: int)
    requires forall i :: 0 <= i < |order| ==> order[i] in bags
    requires 0 <= k < |order| && Named(bags[order[k]], name)
    requires forall i :: 0 <= i < k ==> !Named(bags[order[i]], name)
    ensures FirstNamed(bags, order, name) == Some(order[k])
  {
    var r := FirstNamed(bags, order, name);
    var k' :| 0 <= k' < |order| && order[k'] == r.value && Named(bags[order[k']], name)
              && forall i :: 0 <= i < k' ==> !Named(bags[order[i]], name);
    assert !(k' < k) && !(k < k');
  }

  /** The `$type` of every bag that records one, in enumeration order:
      what `GetDevices` resolves, one fresh handler per entry. */
  function RecordedTypes(bags: map<int, Bag>, order: seq<int>): (r: seq<HandlerType>)
    requires forall i :: 0 <= i < |order| ==> order[i] in bags
    ensures |r| <= |order|
  {
    if order == [] then [] else RecordedType(bags[order[0]]) + RecordedTypes(bags, order[1..])
  }

  /** The `$type` a bag records, if it records one. */
  function RecordedType(b: Bag): seq<HandlerType> {
    if TypeKey in b && b[TypeKey].TypeV? then [b[TypeKey].t] else []
  }

  /** `GetDevices` visits a type exactly when some bag records it. */
  lemma {:induction false} RecordedMembers(bags: map<int, Bag>, order: seq<int>)
    requires forall i :: 0 <= i < |order| ==> order[i] in bags
    ensures forall t :: t in RecordedTypes(bags, order) <==> exists i :: 0 <= i < |order| && Records(bags[order[i]], t)
  {
    if order != [] {
      var b := bags[order[0]];
      RecordedMembers(bags, order[1..]);
      forall t | t in RecordedTypes(bags, order)
        ensures exists i :: 0 <= i < |order| && Records(bags[order[i]], t)
      {
        if t !in RecordedType(b) {
          var i :| 0 <= i < |order[1..]| && Records(bags[order[1..][i]], t);
          assert Records(bags[order[i + 1]], t);
        }
      }
      forall t, i | 0 <= i < |order| && Records(bags[order[i]], t)
        ensures t in RecordedTypes(bags, order)
      {
        if i > 0 {
          assert Records(bags[order[1..][i - 1]], t);
        }
      }
    }
  }

  /** Bag `b` records handler type `t`. */
  predicate Records(b: Bag, t: HandlerType) {
    TypeKey in b && b[TypeKey] == TypeV(t)
  }

  /** A bag written by `StoreValuesInStorage` resolves to a handler with the
      stored handler's state: every walked field comes back, and the
      readonly services are the fresh instance's own. */
  lemma PersistRoundTrip(cs: seq<NewHandler>, b: Bag, t: NewHandler, f: Bag)
    requires WellFormed(t, f) && t in cs && Records(b, t)
    ensures Resolve(cs, Some(b + Stored(f, DeviceFields(t)))) == Resolved(t, Defaults(t) + Stored(f, DeviceFields(t)))
  {
    WalkedInLayout(t);
    var s := Stored(f, DeviceFields(t));
    assert (b + s)[TypeKey] == TypeV(t);
    ApplyStoredOver(t, Defaults(t), f, DeviceFields(t), b);
  }

  /** Applying a bag into which fitting fields were stored raises nothing
      and sets exactly those fields. */
  lemma ApplyStoredOver(t: DeviceType, g: Bag, f: Bag, fs: seq<FieldDecl>, b: Bag)
    requires Names(fs) <= f.Keys && forall n :: n in Names(fs) ==> Fits(t, n, f[n])
    ensures ApplyFields(t, g, fs, b + Stored(f, fs)) == (g + Stored(f, fs), false)
  {
    var data := b + Stored(f, fs);
    assert forall n :: n in Names(fs) ==> n in data && data[n] == f[n];
    ApplyFieldsFitting(t, g, fs, data);
    StoredOverlay(b, f, fs);
  }

  /** Reading the walked fields back out of a bag they were stored into
      gives what was stored. */
  lemma StoredOverlay(b: Bag, f: Bag, fs: seq<FieldDecl>)
    requires Names(fs) <= f.Keys
    ensures Stored(b + Stored(f, fs), fs) == Stored(f, fs)
  {
  }

  /** What applying a bag that raised nothing leaves in a field: the bag's
      value (as `SetValue` converts it) when the walk reaches the field and
      the bag has it, and the field's previous value otherwise. */
  lemma {:induction false} ApplyFieldsValue(t: DeviceType, f: Bag, fs: seq<FieldDecl>, data: Bag, n: Key)
    requires !ApplyFields(t, f, fs, data).1
    ensures var r := ApplyFields(t, f, fs, data).0;
            if n in Names(fs) && n in data then Assign(t, n, data[n]).Some? && n in r && r[n] == Assign(t, n, data[n]).value
            else (n in r <==> n in f) && (n in f ==> r[n] == f[n])
    decreases |fs|
  {
    if fs != [] {
      var k := fs[0].name;
      assert Names(fs) == {k} + Names(fs[1..]);
      if k !in data {
        ApplyFieldsValue(t, f, fs[1..], data, n);
      } else {
        ApplyFieldsValue(t, f[k := Assign(t, k, data[k]).value], fs[1..], data, n);
      }
    }
  }
}
