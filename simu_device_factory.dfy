/** The older event dispatcher, `lwnsim.Devices.SimuDeviceFactory`. It
    remembers every device descriptor by id and keeps one state bag per
    device id, which all registered handlers share. For each event and each
    handler, in registration order, it fetches (or creates) the device's
    bag, copies the bag into a fresh handler instance, lets the handler
    process the event, and copies the handler's non-readonly fields back.

    The handler's `ProcessAsync` is called without awaiting the task it
    returns: an exception inside the handler stays in that task and the
    dispatch goes on. The dispatcher's own exceptions (`SetValue` given a
    value of the wrong type, a null bag) end the dispatch. Both
    dictionaries are static in the source; here they are fields of the
    factory object. */
module LegacyFactory {

  import opened Wrappers
  import opened Text
  import opened DeviceValues
  import opened DeviceExtensions
  import Sensative
  import Legacy
  import SP = SensativePayload

  /** The injected services, held in readonly fields. */
  const Services: set<Key> := {LoggerField, ConnectionServiceField, RandomField}

  /** The fields `StoreValuesInStorage` writes back for a handler of type
      `t`: those reflection reports for `t` that are not readonly. */
  function KeptFields(t: LegacyHandler): seq<FieldDecl> {
    Writable(ReportedFields(t))
  }

  /** Reflection on an older handler reports its whole layout, and only the
      injected services are readonly. */
  lemma LegacyWalk(t: LegacyHandler)
    ensures Names(ReportedFields(t)) == Layout(t)
    ensures Names(KeptFields(t)) == Layout(t) - Services
  {
    var own := if t == LegacySensativeStrip then [FieldDecl(CurrentStateField, false), FieldDecl(UplinkReceivedField, false)]
               else [FieldDecl(UplinkReceivedField, false)];
    OwnLevel(t, own);
    if t == LegacySensativeStrip {
      NamesOf2(own);
    } else {
      NamesOf1(own);
    }
  }

  /** A level made of the services and writable fields of its own keeps
      exactly its own fields. */
  lemma OwnLevel(t: DeviceType, own: seq<FieldDecl>)
    requires ReportedFields(t) == ServiceFields + own
    requires forall i :: 0 <= i < |own| ==> !own[i].readonly
    ensures Names(ReportedFields(t)) == Services + Names(own)
    ensures Writable(ReportedFields(t)) == own
  {
    LevelNames(t, own);
    WritableConcat(ServiceFields, own);
    WritableServices();
    WritableAll(own);
  }

  /** A bag as the older handlers leave it: only their own state fields,
      each holding a value of the field's type. */
  predicate LegacyBag(b: Bag) {
    && b.Keys <= {CurrentStateField, UplinkReceivedField}
    && (CurrentStateField in b ==> Fits(LegacySensativeStrip, CurrentStateField, b[CurrentStateField]))
    && (UplinkReceivedField in b ==> Fits(LegacySensativeStrip, UplinkReceivedField, b[UplinkReceivedField]))
  }

  /** The strip state a fresh strip holds once bag `b` is applied. */
  function StateOf(b: Bag): Value {
    if CurrentStateField in b then b[CurrentStateField] else InitialValue(LegacySensativeStrip, CurrentStateField)
  }

  /** `ApplyValuesFromStorage` on a fresh instance of `t`: every reported
      field the bag has an entry for, assigned in the order reflection
      reports them; the flag says an `ArgumentException` was raised. */
  function Applied(t: LegacyHandler, bag: Bag): (r: (Bag, bool))
    ensures !r.1 ==> WellFormed(t, r.0)
  {
    LegacyWalk(t);
    DefaultsFit(t);
    var r := ApplyFields(t, Defaults(t), ReportedFields(t), bag);
    if r.1 then r
    else
      ApplyFieldsWellFormed(t, Defaults(t), ReportedFields(t), bag);
      r
  }

  /** A bag whose entries fit the handler's fields is copied in as it is;
      the fields it has no entry for keep their initial values. */
  lemma AppliedFitting(t: LegacyHandler, bag: Bag)
    requires forall n :: n in bag && n in Layout(t) ==> Fits(t, n, bag[n])
    ensures Applied(t, bag) == (Defaults(t) + Stored(bag, ReportedFields(t)), false)
    ensures forall n :: n in Layout(t) ==> Applied(t, bag).0[n] == if n in bag then bag[n] else InitialValue(t, n)
  {
    LegacyWalk(t);
    ApplyFieldsFitting(t, Defaults(t), ReportedFields(t), bag);
  }

  /** One handler's turn: apply the bag to a fresh instance, process the
      event, store the writable fields back into the bag. `None` when
      applying the bag raised, which ends the dispatch with the bag as it
      was. */
  function Turn(t: LegacyHandler, bag: Bag, e: Legacy.Event): (r: Option<(Bag, seq<Emit>)>)
    ensures r.Some? && r.value.1 != [] ==> e.DescriptorEvent? && t == LegacySensativeStrip
  {
    var a := Applied(t, bag);
    if a.1 then None
    else
      var s := Legacy.OnEvent(t, a.0, e);
      Some((bag + Stored(s.fields, KeptFields(t)), s.emits))
  }

  /** A turn for any handler on any bag, as a value: how the dispatch
      strings turns together does not depend on what one turn does. */
  type TurnFn = (LegacyHandler, Bag) -> Option<(Bag, seq<Emit>)>

  /** The turns for event `e`. The handler's class decides which
      `ProcessAsync` runs, as the virtual call does: the strip's or
      `Em300th`'s. */
  function TurnOn(e: Legacy.Event): TurnFn {
    (t: LegacyHandler, b: Bag) => (if t == LegacySensativeStrip then StripTurns(e) else Em300Turns(e))(b)
  }

  /** The strip's turns for event `e`. */
  function StripTurns(e: Legacy.Event): Bag -> Option<(Bag, seq<Emit>)> {
    b => Turn(LegacySensativeStrip, b, e)
  }

  /** `Em300th`'s turns for event `e`. */
  function Em300Turns(e: Legacy.Event): Bag -> Option<(Bag, seq<Emit>)> {
    b => Turn(LegacyEm300th, b, e)
  }

  /** Every handler's turn for `e` is its `Turn`. */
  lemma TurnOnIs(t: LegacyHandler, b: Bag, e: Legacy.Event)
    ensures TurnOn(e)(t, b) == Turn(t, b, e)
  {
    if t == LegacySensativeStrip {
      assert TurnOn(e)(t, b) == StripTurns(e)(b);
    } else {
      assert TurnOn(e)(t, b) == Em300Turns(e)(b);
    }
  }

  /** The dispatch of one event to handlers `hs`, in order, from the
      device's bag: the bag afterwards, what the handlers sent, and the
      exception that ended the dispatch, if one did. */
  datatype Run = Run(bag: Bag, emits: seq<Emit>, fault: Option<Fault>)

  /** The dispatch loop with turns `turn`: a turn that raises ends it. */
  function RunWith(hs: seq<LegacyHandler>, bag: Bag, turn: TurnFn): (r: Run)
    ensures r.fault.Some? ==> r.fault == Some(ArgumentException)
    decreases |hs|
  {
    if hs == [] then Run(bag, [], None)
    else
      match turn(hs[0], bag)
      case None => Run(bag, [], Some(ArgumentException))
      case Some((next, sent)) =>
        var rest := RunWith(hs[1..], next, turn);
        Run(rest.bag, sent + rest.emits, rest.fault)
  }

  /** The dispatch of event `e`. */
  function RunAll(hs: seq<LegacyHandler>, bag: Bag, e: Legacy.Event): Run {
    RunWith(hs, bag, TurnOn(e))
  }

  /** The bag stored for `id`, or the one `GetDeviceData` creates. */
  function BagOf(data: map<int, Bag>, id: int): Bag {
    if id in data then data[id] else map[]
  }

  /** The dispatch to handlers `hs` for device `id` with turns `turn`:
      the bags afterwards and the run. `GetDeviceData` creates the device's
      bag only once there is a handler to hand it to. */
  function DispatchWith(hs: seq<LegacyHandler>, data: map<int, Bag>, id: int, turn: TurnFn): (map<int, Bag>, Run) {
    var r := RunWith(hs, BagOf(data, id), turn);
    (if hs == [] then data else data[id := r.bag], r)
  }

  /** An event for device `id` (`None` when no descriptor carries the
      event's name) dispatched to handlers `hs`: the bags afterwards and the
      run. With `guarded`, an event for no device reaches no handler (the
      `data == null` check); without it, the first handler's
      `ApplyValuesFromStorage` dereferences the null bag. */
  function Dispatch(hs: seq<LegacyHandler>, data: map<int, Bag>, id: Option<int>, e: Legacy.Event, guarded: bool)
    : (map<int, Bag>, Run)
  {
    if id.None? then (data, Run(map[], [], if guarded || hs == [] then None else Some(NullReferenceException)))
    else DispatchWith(hs, data, id.value, TurnOn(e))
  }

  /** `GetDeviceIdByName`: the first id, in the order the descriptors were
      first recorded, whose descriptor carries the name. */
  function FirstResponse(responses: map<int, Descriptor>, order: seq<int>, name: string): (r: Option<int>)
    requires forall i :: 0 <= i < |order| ==> order[i] in responses
    ensures r.None? <==> forall i :: 0 <= i < |order| ==> responses[order[i]].name != name
    ensures r.Some? ==> exists k :: 0 <= k < |order| && order[k] == r.value && responses[order[k]].name == name
                                    && forall i :: 0 <= i < k ==> responses[order[i]].name != name
  {
    if order == [] then None
    else if responses[order[0]].name == name then Some(order[0])
    else
      var r := FirstResponse(responses, order[1..], name);
      assert forall i :: 1 <= i < |order| ==> order[i] == order[1..][i - 1];
      if r.Some? then
        var k :| 0 <= k < |order[1..]| && order[1..][k] == r.value && responses[order[1..][k]].name == name
                 && forall i :: 0 <= i < k ==> responses[order[1..][i]].name != name;
        assert order[k + 1] == r.value && forall i :: 0 <= i < k + 1 ==> responses[order[i]].name != name;
        r
      else r
  }

  lemma FirstResponseAt(responses: map<int, Descriptor>, order: seq<int>, name: string, k: int)
    requires forall i :: 0 <= i < |order| ==> order[i] in responses
    requires 0 <= k < |order| && responses[order[k]].name == name
    requires forall i :: 0 <= i < k ==> responses[order[i]].name != name
    ensures FirstResponse(responses, order, name) == Some(order[k])
  {
    var r := FirstResponse(responses, order, name);
    var k' :| 0 <= k' < |order| && order[k'] == r.value && responses[order[k']].name == name
              && forall i :: 0 <= i < k' ==> responses[order[i]].name != name;
    assert !(k' < k) && !(k < k');
  }

  /** The bags, emissions and fault a dispatch ends with. */
  function Outcome(r: (map<int, Bag>, Run)): (map<int, Bag>, seq<Emit>, Option<Fault>) {
    (r.0, r.1.emits, r.1.fault)
  }

  /** A turn's result as the loop body sees it: the bag left behind, what
      was sent, and the `ArgumentException` when applying the bag raised. */
  function TurnResult(r: Option<(Bag, seq<Emit>)>, bag: Bag): (Bag, seq<Emit>, Option<Fault>) {
    if r.None? then (bag, [], Some(ArgumentException)) else (r.value.0, r.value.1, None)
  }

  /** `turn` is the handlers' turn for `e` wherever the latter is looked
      at; the loop is proved for any such `turn`. */
  ghost predicate Faithful(turn: TurnFn, e: Legacy.Event) {
    forall t, b {:trigger Turn(t, b, e)} :: turn(t, b) == Turn(t, b, e)
  }

  /** The handlers' turns for `e` are faithful to `e`. */
  lemma TurnOnFaithful(e: Legacy.Event)
    ensures Faithful(TurnOn(e), e)
  {
    forall t, b
      ensures TurnOn(e)(t, b) == Turn(t, b, e)
    {
      TurnOnIs(t, b, e);
    }
  }

  class SimuDeviceFactory {
    /** The handlers `GetServices<ISimuDevice>()` yields, in order. */
    const handlers: seq<LegacyHandler>
    /** `_deviceData`: the state bag of each device id. */
    var deviceData: map<int, Bag>
    /** `_deviceResponses`: the last descriptor seen for each device id. */
    var responses: map<int, Descriptor>
    /** The order in which `_deviceResponses` enumerates its keys: first
        insertion, since entries are only ever added or replaced. */
    var responseOrder: seq<int>

    constructor (handlers: seq<LegacyHandler>)
      ensures this.handlers == handlers && deviceData == map[] && responses == map[] && responseOrder == []
      ensures Valid()
    {
      this.handlers := handlers;
      deviceData := map[];
      responses := map[];
      responseOrder := [];
    }

    /** The enumeration order lists each recorded id once, and every bag is
        one the older handlers leave behind. */
    ghost predicate Valid()
      reads this
    {
      (forall i :: 0 <= i < |responseOrder| ==> responseOrder[i] in responses)
      && (forall id :: id in responses ==> id in responseOrder)
      && (forall i, j :: 0 <= i < j < |responseOrder| ==> responseOrder[i] != responseOrder[j])
      && (forall id :: id in deviceData ==> LegacyBag(deviceData[id]))
    }

    /** `Process(LwnDeviceResponse)`: the descriptor is recorded first, then
        dispatched to every handler; nothing raises. */
    method ProcessDescriptor(d: Descriptor) returns (emits: seq<Emit>, fault: Option<Fault>)
      requires Valid()
      modifies this
      ensures Valid()
      ensures responses == old(responses)[d.id as int := d]
      ensures responseOrder == if d.id as int in old(responses) then old(responseOrder) else old(responseOrder) + [d.id as int]
      ensures (deviceData, emits, fault)
              == Outcome(Dispatch(handlers, old(deviceData), Some(d.id as int), Legacy.DescriptorEvent(d), false))
      ensures fault.None?
    {
      if d.id as int !in responses {
        responseOrder := responseOrder + [d.id as int];
      }
      responses := responses[d.id as int := d];
      NeverRaises(handlers, BagOf(deviceData, d.id as int), Legacy.DescriptorEvent(d));
      TurnOnFaithful(Legacy.DescriptorEvent(d));
      emits, fault := RunHandlers(d.id as int, Legacy.DescriptorEvent(d), TurnOn(Legacy.DescriptorEvent(d)));
    }

    /** `Process(ReceiveDownlink)` as written: for a name no descriptor
        carries, `GetDeviceData(null)` is null and the first handler's
        `ApplyValuesFromStorage` dereferences it. */
    method ProcessDownlink(downlink: ReceiveDownlink) returns (emits: seq<Emit>, fault: Option<Fault>)
      requires Valid()
      modifies this
      ensures Valid() && responses == old(responses) && responseOrder == old(responseOrder)
      ensures (deviceData, emits, fault)
              == Outcome(Dispatch(handlers, old(deviceData), FirstResponse(old(responses), old(responseOrder), downlink.name),
                                  Legacy.DownlinkEvent(downlink), false))
    {
      var id := GetDeviceIdByName(downlink.name);
      if id.None? {
        if handlers != [] {
          var device := new SimDevice(handlers[0]);
          fault := ApplyValuesFromStorage(device, None);
        } else {
          fault := None;
        }
        return [], fault;
      }
      NeverRaises(handlers, BagOf(deviceData, id.value), Legacy.DownlinkEvent(downlink));
      TurnOnFaithful(Legacy.DownlinkEvent(downlink));
      emits, fault := RunHandlers(id.value, Legacy.DownlinkEvent(downlink), TurnOn(Legacy.DownlinkEvent(downlink)));
    }

    /** `Process(ReceiveDownlink)` with the console's `data == null` check:
        a name no descriptor carries reaches no handler. */
    method ProcessDownlinkGuarded(downlink: ReceiveDownlink) returns (emits: seq<Emit>, fault: Option<Fault>)
      requires Valid()
      modifies this
      ensures Valid() && responses == old(responses) && responseOrder == old(responseOrder)
      ensures (deviceData, emits, fault)
              == Outcome(Dispatch(handlers, old(deviceData), FirstResponse(old(responses), old(responseOrder), downlink.name),
                                  Legacy.DownlinkEvent(downlink), true))
      ensures fault.None? && emits == []
    {
      var id := GetDeviceIdByName(downlink.name);
      if id.None? {
        return [], None;
      }
      NeverRaises(handlers, BagOf(deviceData, id.value), Legacy.DownlinkEvent(downlink));
      TurnOnFaithful(Legacy.DownlinkEvent(downlink));
      OnlyDescriptorsSend(handlers, BagOf(deviceData, id.value), Legacy.DownlinkEvent(downlink));
      emits, fault := RunHandlers(id.value, Legacy.DownlinkEvent(downlink), TurnOn(Legacy.DownlinkEvent(downlink)));
    }

    /** `Process(ConsoleLog)`: a name no descriptor carries reaches no
        handler; `rd` is what the clock and the generator give the strip. */
    method ProcessConsole(message: ConsoleLog, rd: Readings) returns (emits: seq<Emit>, fault: Option<Fault>)
      requires Valid()
      modifies this
      ensures Valid() && responses == old(responses) && responseOrder == old(responseOrder)
      ensures (deviceData, emits, fault)
              == Outcome(Dispatch(handlers, old(deviceData), FirstResponse(old(responses), old(responseOrder), message.name),
                                  Legacy.ConsoleEvent(message, rd), true))
      ensures fault.None? && emits == []
    {
      var id := GetDeviceIdByName(message.name);
      if id.None? {
        return [], None;
      }
      NeverRaises(handlers, BagOf(deviceData, id.value), Legacy.ConsoleEvent(message, rd));
      OnlyDescriptorsSend(handlers, BagOf(deviceData, id.value), Legacy.ConsoleEvent(message, rd));
      TurnOnFaithful(Legacy.ConsoleEvent(message, rd));
      emits, fault := RunHandlers(id.value, Legacy.ConsoleEvent(message, rd), TurnOn(Legacy.ConsoleEvent(message, rd)));
    }

    /** The loop every `Process` overload runs for a known device id, with
        the handlers' turns for `e`. */
    method RunHandlers(id: int, e: Legacy.Event, ghost turn: TurnFn) returns (emits: seq<Emit>, fault: Option<Fault>)
      requires Faithful(turn, e)
      modifies this
      ensures (responses, responseOrder) == old((responses, responseOrder))
      ensures (deviceData, emits, fault) == Outcome(DispatchWith(handlers, old(deviceData), id, turn))
    {
      ghost var data0 := deviceData;
      ghost var bags: seq<Bag> := [BagOf(deviceData, id)];
      ghost var sents: seq<seq<Emit>> := [];
      emits, fault := [], None;
      var i := 0;
      while i < |handlers|
        invariant 0 <= i <= |handlers| && |bags| == i + 1 && bags[0] == BagOf(data0, id)
        invariant (responses, responseOrder) == old((responses, responseOrder))
        invariant deviceData == if i == 0 then data0 else data0[id := bags[i]]
        invariant Chained(handlers[..i], bags, sents, turn)
        invariant fault.None? && emits == Flatten(sents)
      {
        assert BagOf(deviceData, id) == bags[i];
        var sent, f := RunOne(id, handlers[i], e, turn);
        if f.Some? {
          UpdateTwice(data0, id, bags[i], bags[i]);
          ChainFault(handlers, bags, sents, turn);
          return emits, f;
        }
        ghost var next := deviceData[id];
        ChainSnoc(handlers, i, bags, sents, turn, next, sent);
        bags, sents := bags + [next], sents + [sent];
        emits := emits + sent;
        i := i + 1;
      }
      assert handlers[..i] == handlers;
      ChainRun(handlers, bags, sents, turn);
    }

    /** The loop body for handler `t`: fetch the device's bag, take the
        handler's turn on it, keep the bag the turn leaves. */
    method RunOne(id: int, t: LegacyHandler, e: Legacy.Event, ghost turn: TurnFn) returns (sent: seq<Emit>, fault: Option<Fault>)
      requires Faithful(turn, e)
      modifies this
      ensures (responses, responseOrder) == old((responses, responseOrder))
      ensures var r := TurnResult(turn(t, BagOf(old(deviceData), id)), BagOf(old(deviceData), id));
              (deviceData, sent, fault) == (old(deviceData)[id := r.0], r.1, r.2)
    {
      var data := GetDeviceData(Some(id));
      var next;
      next, sent, fault := TakeTurn(t, data.value, e);
      deviceData := deviceData[id := next];
      assert turn(t, data.value) == Turn(t, data.value, e);
      UpdateTwice(old(deviceData), id, data.value, next);
    }

    /** One handler's turn on a bag: a fresh instance, the bag applied to
        it, the event processed without awaiting the task, the fields
        stored back. An exception while applying ends the turn. */
    method TakeTurn(t: LegacyHandler, bag: Bag, e: Legacy.Event) returns (next: Bag, sent: seq<Emit>, fault: Option<Fault>)
      ensures (next, sent, fault) == TurnResult(Turn(t, bag, e), bag)
    {
      var device := new SimDevice(t);
      fault := ApplyValuesFromStorage(device, Some(bag));
      if fault.Some? {
        return bag, [], fault;
      }
      var lost;
      lost, sent := Legacy.ProcessEvent(device, e);
      next := StoreValuesInStorage(device, bag);
    }

    /** `GetDeviceData`: no bag for no id; otherwise the id's bag, created
        empty the first time. */
    method GetDeviceData(id: Option<int>) returns (data: Option<Bag>)
      modifies this
      ensures responses == old(responses) && responseOrder == old(responseOrder)
      ensures id.None? ==> data.None? && deviceData == old(deviceData)
      ensures id.Some? ==> data == Some(BagOf(old(deviceData), id.value))
                           && deviceData == old(deviceData)[id.value := data.value]
    {
      if id.None? {
        return None;
      }
      if id.value in deviceData {
        return Some(deviceData[id.value]);
      }
      deviceData := deviceData[id.value := map[]];
      return Some(deviceData[id.value]);
    }

    /** `GetDeviceIdByName`: the enumeration stops at the first descriptor
        carrying the name. */
    method GetDeviceIdByName(name: string) returns (id: Option<int>)
      requires Valid()
      ensures id == FirstResponse(responses, responseOrder, name)
    {
      var i := 0;
      while i < |responseOrder|
        invariant 0 <= i <= |responseOrder|
        invariant forall j :: 0 <= j < i ==> responses[responseOrder[j]].name != name
      {
        if responses[responseOrder[i]].name == name {
          FirstResponseAt(responses, responseOrder, name, i);
          return Some(responseOrder[i]);
        }
        i := i + 1;
      }
      return None;
    }

    /** `ApplyValuesFromStorage`: each field reflection reports for the
        handler's type, set to the bag's entry of that name; a null bag is
        dereferenced at the first field. */
    method ApplyValuesFromStorage(device: SimDevice, data: Option<Bag>) returns (fault: Option<Fault>)
      requires !IsNewSimuDevice(device.dtype) && device.Valid()
      modifies device
      ensures data.None? ==> fault == Some(NullReferenceException) && device.fields == old(device.fields)
      ensures data.Some? ==>
                var r := ApplyFields(device.dtype, old(device.fields), ReportedFields(device.dtype), data.value);
                device.fields == r.0 && (r.1 <==> fault == Some(ArgumentException)) && (!r.1 <==> fault.None?)
      ensures fault.None? ==> device.Valid()
    {
      LegacyWalk(device.dtype);
      if data.None? {
        return Some(NullReferenceException);
      }
      fault := SetEach(device, ReportedFields(device.dtype), data.value);
      if fault.None? {
        ApplyFieldsWellFormed(device.dtype, old(device.fields), ReportedFields(device.dtype), data.value);
      }
    }

    /** `StoreValuesInStorage`: each non-readonly field reflection reports,
        written into the bag under its name. */
    method StoreValuesInStorage(device: SimDevice, data: Bag) returns (stored: Bag)
      requires !IsNewSimuDevice(device.dtype) && device.Valid()
      ensures stored == data + Stored(device.fields, KeptFields(device.dtype))
    {
      LegacyWalk(device.dtype);
      var kept := AppendWritable([], ReportedFields(device.dtype));
      assert kept == KeptFields(device.dtype);
      stored := StoreEach(data, device.fields, kept);
    }
  }

  /** A second update of a key replaces the first. */
  lemma UpdateTwice(m: map<int, Bag>, k: int, x: Bag, y: Bag)
    ensures m[k := x][k := y] == m[k := y]
  {
  }

  /** The factory's own exceptions never fire on bags the older handlers
      leave behind, and such bags stay that way. */
  lemma NeverRaises(hs: seq<LegacyHandler>, b: Bag, e: Legacy.Event)
    requires LegacyBag(b)
    ensures RunAll(hs, b, e).fault.None? && LegacyBag(RunAll(hs, b, e).bag)
  {
    RunAllIsSpec(hs, b, e);
    SpecOnKeeps(e);
    RunKeeps(hs, b, SpecOn(e));
  }

  /** Turns that keep bags of the older handlers never end a dispatch
      early, and leave such a bag. */
  lemma {:induction false} RunKeeps(hs: seq<LegacyHandler>, b: Bag, g: TurnFn)
    requires LegacyBag(b) && KeepsBags(g)
    ensures RunWith(hs, b, g).fault.None? && LegacyBag(RunWith(hs, b, g).bag)
    decreases |hs|
  {
    if hs != [] {
      assert KeepsLegacy(g(hs[0], b));
      RunKeeps(hs[1..], g(hs[0], b).value.0, g);
    }
  }

  /** Only a descriptor makes a handler send anything. */
  lemma {:induction false} OnlyDescriptorsSend(hs: seq<LegacyHandler>, b: Bag, e: Legacy.Event)
    requires !e.DescriptorEvent?
    ensures RunAll(hs, b, e).emits == []
    decreases |hs|
  {
    if hs != [] {
      TurnOnIs(hs[0], b, e);
      if TurnOn(e)(hs[0], b).Some? {
        OnlyDescriptorsSend(hs[1..], TurnOn(e)(hs[0], b).value.0, e);
      }
    }
  }

  /** The emissions of successive turns, in order. */
  function Flatten(ss: seq<seq<Emit>>): seq<Emit> {
    if ss == [] then [] else Flatten(ss[..|ss| - 1]) + ss[|ss| - 1]
  }

  /** Handlers `hs` took their turns one after the other without raising:
      handler `k` turned bag `bags[k]` into `bags[k + 1]` and sent
      `sents[k]`. */
  ghost predicate Chained(hs: seq<LegacyHandler>, bags: seq<Bag>, sents: seq<seq<Emit>>, turn: TurnFn) {
    |bags| == |hs| + 1 && |sents| == |hs|
    && forall k :: 0 <= k < |hs| ==> turn(hs[k], bags[k]) == Some((bags[k + 1], sents[k]))
  }

  /** One more turn extends the chain. */
  lemma ChainSnoc(hs: seq<LegacyHandler>, i: int, bags: seq<Bag>, sents: seq<seq<Emit>>, turn: TurnFn,
                  next: Bag, sent: seq<Emit>)
    requires 0 <= i < |hs| && Chained(hs[..i], bags, sents, turn)
    requires turn(hs[i], bags[i]) == Some((next, sent))
    ensures Chained(hs[..i + 1], bags + [next], sents + [sent], turn)
    ensures Flatten(sents + [sent]) == Flatten(sents) + sent
  {
    assert (sents + [sent])[..|sents|] == sents;
    var hs' := hs[..i + 1];
    forall k | 0 <= k < i + 1
      ensures turn(hs'[k], (bags + [next])[k]) == Some(((bags + [next])[k + 1], (sents + [sent])[k]))
    {
      if k < i {
        assert hs'[k] == hs[..i][k];
      }
    }
  }

  /** A chain over the first `n` handlers is the start of the whole
      dispatch: what follows is the dispatch from handler `n` on. */
  lemma {:induction false} ChainThen(hs: seq<LegacyHandler>, bags: seq<Bag>, sents: seq<seq<Emit>>, turn: TurnFn, n: int)
    requires 0 <= n <= |hs| && Chained(hs[..n], bags, sents, turn)
    ensures var rest := RunWith(hs[n..], bags[n], turn);
            RunWith(hs, bags[0], turn) == Run(rest.bag, Flatten(sents) + rest.emits, rest.fault)
    decreases n
  {
    if n == 0 {
      assert hs[0..] == hs;
    } else {
      ChainPrefix(hs[..n], bags, sents, turn, n - 1);
      assert hs[..n][..n - 1] == hs[..n - 1];
      ChainThen(hs, bags[..n], sents[..n - 1], turn, n - 1);
      RunWithStep(hs, n - 1, bags[n - 1], turn);
      assert hs[..n][n - 1] == hs[n - 1];
      var rest := RunWith(hs[n..], bags[n], turn);
      assert sents[..n - 1] + [sents[n - 1]] == sents;
      assert Flatten(sents) == Flatten(sents[..n - 1]) + sents[n - 1];
      assert Flatten(sents[..n - 1]) + (sents[n - 1] + rest.emits) == Flatten(sents) + rest.emits;
    }
  }

  /** A prefix of a chain is a chain. */
  lemma ChainPrefix(hs: seq<LegacyHandler>, bags: seq<Bag>, sents: seq<seq<Emit>>, turn: TurnFn, n: int)
    requires Chained(hs, bags, sents, turn) && 0 <= n <= |hs|
    ensures Chained(hs[..n], bags[..n + 1], sents[..n], turn)
  {
    forall k | 0 <= k < n
      ensures turn(hs[..n][k], bags[..n + 1][k]) == Some((bags[..n + 1][k + 1], sents[..n][k]))
    {
      assert hs[..n][k] == hs[k];
    }
  }

  /** A chain over all the handlers is the whole dispatch. */
  lemma ChainRun(hs: seq<LegacyHandler>, bags: seq<Bag>, sents: seq<seq<Emit>>, turn: TurnFn)
    requires Chained(hs, bags, sents, turn)
    ensures RunWith(hs, bags[0], turn) == Run(bags[|hs|], Flatten(sents), None)
  {
    assert hs[..|hs|] == hs;
    ChainThen(hs, bags, sents, turn, |hs|);
    assert hs[|hs|..] == [];
    assert Flatten(sents) + [] == Flatten(sents);
  }

  /** A chain that stops at a handler whose turn raises ends the dispatch
      with the chain's bag and emissions. */
  lemma ChainFault(hs: seq<LegacyHandler>, bags: seq<Bag>, sents: seq<seq<Emit>>, turn: TurnFn)
    requires 1 <= |bags| <= |hs| && Chained(hs[..|bags| - 1], bags, sents, turn)
    requires turn(hs[|bags| - 1], bags[|bags| - 1]).None?
    ensures RunWith(hs, bags[0], turn) == Run(bags[|bags| - 1], Flatten(sents), Some(ArgumentException))
  {
    var i := |bags| - 1;
    ChainThen(hs, bags, sents, turn, i);
    RunWithStep(hs, i, bags[i], turn);
    assert Flatten(sents) + [] == Flatten(sents);
  }

  /** The dispatch from handler `i` on is that handler's turn, then the
      dispatch from the next one. */
  lemma RunWithStep(hs: seq<LegacyHandler>, i: int, b: Bag, turn: TurnFn)
    requires 0 <= i < |hs|
    ensures RunWith(hs[i..], b, turn) == match turn(hs[i], b)
                                         case None => Run(b, [], Some(ArgumentException))
                                         case Some((next, sent)) =>
                                           var rest := RunWith(hs[i + 1..], next, turn);
                                           Run(rest.bag, sent + rest.emits, rest.fault)
  {
    assert hs[i..][0] == hs[i] && hs[i..][1..] == hs[i + 1..];
  }

  /** The flag a fresh older handler holds once bag `b` is applied. */
  function FlagOf(b: Bag): Value {
    if UplinkReceivedField in b then b[UplinkReceivedField] else InitialValue(LegacyEm300th, UplinkReceivedField)
  }

  /** The fields each older handler writes back, in reflection order. */
  lemma KeptForms()
    ensures KeptFields(LegacySensativeStrip) == [FieldDecl(CurrentStateField, false), FieldDecl(UplinkReceivedField, false)]
    ensures KeptFields(LegacyEm300th) == [FieldDecl(UplinkReceivedField, false)]
  {
    OwnLevel(LegacySensativeStrip, [FieldDecl(CurrentStateField, false), FieldDecl(UplinkReceivedField, false)]);
    OwnLevel(LegacyEm300th, [FieldDecl(UplinkReceivedField, false)]);
  }

  /** Keeping the fields of a bag it already covers keeps the whole bag. */
  lemma StoredWithin(f: Bag, fs: seq<FieldDecl>)
    requires f.Keys <= Names(fs)
    ensures Stored(f, fs) == f
  {
  }

  /** Keeping the fields of a bag that shares only `n` with them. */
  lemma StoredAt(f: Bag, fs: seq<FieldDecl>, n: Key)
    requires Names(fs) * f.Keys <= {n}
    ensures Stored(f, fs) == if n in f && n in Names(fs) then map[n := f[n]] else map[]
  {
  }

  /** Keeping two named fields of a bag that has both. */
  lemma StoredPair(f: Bag, fs: seq<FieldDecl>, m: Key, n: Key)
    requires Names(fs) == {m, n} && m in f && n in f
    ensures Stored(f, fs) == map[m := f[m], n := f[n]]
  {
  }

  /** Such a bag on a fresh strip: its entries over the initial values. */
  lemma StripApplied(b: Bag)
    requires LegacyBag(b)
    ensures Applied(LegacySensativeStrip, b) == (Defaults(LegacySensativeStrip) + b, false)
  {
    var t := LegacySensativeStrip;
    LegacyWalk(t);
    ApplyFieldsFitting(t, Defaults(t), ReportedFields(t), b);
    StoredWithin(b, ReportedFields(t));
  }

  /** Such a bag on a fresh `Em300th`: only the flag is taken. */
  lemma Em300Applied(b: Bag)
    requires LegacyBag(b)
    ensures Applied(LegacyEm300th, b) == (Defaults(LegacyEm300th)[UplinkReceivedField := FlagOf(b)], false)
  {
    var t := LegacyEm300th;
    LegacyWalk(t);
    assert Names(ReportedFields(t)) * b.Keys <= {UplinkReceivedField};
    ApplyFieldsFitting(t, Defaults(t), ReportedFields(t), b);
    StoredAt(b, ReportedFields(t), UplinkReceivedField);
    DefaultFlag(b);
  }

  /** Merging in the flag entry or nothing is setting the fresh flag to
      `FlagOf(b)`. */
  lemma DefaultFlag(b: Bag)
    ensures Defaults(LegacyEm300th) + (if UplinkReceivedField in b then map[UplinkReceivedField := b[UplinkReceivedField]] else map[])
         == Defaults(LegacyEm300th)[UplinkReceivedField := FlagOf(b)]
  {
    var d := Defaults(LegacyEm300th);
    assert UplinkReceivedField in d && d[UplinkReceivedField] == BoolV(false);
  }

  /** Storing a strip's fields back sets the bag's state and flag. */
  lemma StripStored(b: Bag, g: Bag)
    requires CurrentStateField in g && UplinkReceivedField in g
    ensures b + Stored(g, KeptFields(LegacySensativeStrip))
         == b[CurrentStateField := g[CurrentStateField]][UplinkReceivedField := g[UplinkReceivedField]]
  {
    KeptForms();
    NamesOf2(KeptFields(LegacySensativeStrip));
    StoredPair(g, KeptFields(LegacySensativeStrip), CurrentStateField, UplinkReceivedField);
  }

  /** Storing an `Em300th`'s fields back sets the bag's flag only. */
  lemma Em300Stored(b: Bag, g: Bag)
    requires UplinkReceivedField in g
    ensures b + Stored(g, KeptFields(LegacyEm300th)) == b[UplinkReceivedField := g[UplinkReceivedField]]
  {
    KeptForms();
    NamesOf1(KeptFields(LegacyEm300th));
    StoredAt(g, KeptFields(LegacyEm300th), UplinkReceivedField);
  }

  /** The strip's turn on such a bag: its step on the applied bag, whose
      state and flag are written back. */
  lemma StripTurnForm(b: Bag, e: Legacy.Event)
    ensures LegacyBag(b) ==>
            && WellFormed(LegacySensativeStrip, Defaults(LegacySensativeStrip) + b)
            && var s := Legacy.OnEvent(LegacySensativeStrip, Defaults(LegacySensativeStrip) + b, e);
               Turn(LegacySensativeStrip, b, e)
               == Some((b[CurrentStateField := s.fields[CurrentStateField]][UplinkReceivedField := s.fields[UplinkReceivedField]], s.emits))
  {
    if LegacyBag(b) {
      var t := LegacySensativeStrip;
      StripApplied(b);
      var s := Legacy.OnEvent(t, Defaults(t) + b, e);
      StripStored(b, s.fields);
    }
  }

  /** `Em300th`'s turn on such a bag: its step on the applied bag, whose
      flag is written back. */
  lemma Em300TurnForm(b: Bag, e: Legacy.Event)
    ensures LegacyBag(b) ==>
            && WellFormed(LegacyEm300th, Defaults(LegacyEm300th)[UplinkReceivedField := FlagOf(b)])
            && var s := Legacy.OnEvent(LegacyEm300th, Defaults(LegacyEm300th)[UplinkReceivedField := FlagOf(b)], e);
               Turn(LegacyEm300th, b, e) == Some((b[UplinkReceivedField := s.fields[UplinkReceivedField]], []))
  {
    if LegacyBag(b) {
      var t := LegacyEm300th;
      Em300Applied(b);
      var s := Legacy.OnEvent(t, Defaults(t)[UplinkReceivedField := FlagOf(b)], e);
      Em300Stored(b, s.fields);
    }
  }

  /** A turn that went through and left a bag of the older handlers. */
  ghost predicate KeepsLegacy(r: Option<(Bag, seq<Emit>)>) {
    r.Some? && LegacyBag(r.value.0)
  }

  /** A console message reporting a sent uplink for a strip name. */
  predicate UplinkReport(m: ConsoleLog) {
    Sensative.CanHandleDeviceResponse(m.name) && ContainsIgnoreCase(m.message, Legacy.UplinkSent)
  }

  /** A bag of the older handlers with the shared flag raised. */
  predicate Pending(b: Bag) {
    LegacyBag(b) && Legacy.UplinkReceived(b)
  }

  /** The bag once the strip has taken an uplink report with readings
      `rd`: the state advanced and the flag raised. */
  function Reported(b: Bag, rd: Readings): Bag {
    b[CurrentStateField := StripPayloadV(Sensative.UplinkUpdate(Sensative.Instance(StateOf(b)), rd))]
     [UplinkReceivedField := BoolV(true)]
  }

  /** What a descriptor for `d` makes the strip send from bag `b`: the hex
      text of the state under the descriptor's id, for a strip name, a
      raised flag and a state that is not null. */
  function DescriptorSends(b: Bag, d: Descriptor): seq<Emit> {
    if Sensative.CanHandleDeviceResponse(d.name) && Legacy.UplinkReceived(b) && StateOf(b).StripPayloadV?
    then [SentUplink(d.id as int, ToHexString(SP.Frame(StateOf(b).sp)))] else []
  }

  /** A fresh strip with bag `b` applied holds the bag's state and flag. */
  lemma StripMerged(b: Bag) returns (f: Bag)
    ensures f == Defaults(LegacySensativeStrip) + b
    ensures (f[CurrentStateField], f[UplinkReceivedField], Legacy.UplinkReceived(f))
            == (StateOf(b), FlagOf(b), Legacy.UplinkReceived(b))
  {
    f := Defaults(LegacySensativeStrip) + b;
    DefaultsFit(LegacySensativeStrip);
  }

  /** A fresh `Em300th` with bag `b` applied holds the bag's flag. */
  lemma Em300Merged(b: Bag) returns (f: Bag)
    ensures f == Defaults(LegacyEm300th)[UplinkReceivedField := FlagOf(b)]
    ensures Legacy.UplinkReceived(f) == Legacy.UplinkReceived(b)
  {
    f := Defaults(LegacyEm300th)[UplinkReceivedField := FlagOf(b)];
  }

  /** `Em300th`'s turn on such a bag: nothing sent, and the shared flag
      cleared by a descriptor, whatever its name, and kept by any other
      event. */
  lemma Em300Turn(b: Bag, e: Legacy.Event)
    requires LegacyBag(b)
    ensures Turn(LegacyEm300th, b, e)
            == Some((b[UplinkReceivedField := BoolV(!e.DescriptorEvent? && Legacy.UplinkReceived(b))], []))
  {
    var f := Em300Merged(b);
    Em300TurnForm(b, e);
    Legacy.Em300Step(f, e);
  }

  /** The strip's turn on an uplink report for a strip name: the state
      advanced, the flag raised, nothing sent. */
  lemma StripConsoleTurn(b: Bag, m: ConsoleLog, rd: Readings)
    requires LegacyBag(b) && UplinkReport(m)
    ensures Turn(LegacySensativeStrip, b, Legacy.ConsoleEvent(m, rd)) == Some((Reported(b, rd), []))
  {
    var f := StripMerged(b);
    StripTurnForm(b, Legacy.ConsoleEvent(m, rd));
    Legacy.StripConsoleStep(f, m, rd);
  }

  /** The strip's turn on a descriptor: the state written back unchanged,
      the flag cleared for a strip name, and the hex text sent only when the
      flag was raised. */
  lemma StripDescriptorTurn(b: Bag, d: Descriptor)
    requires LegacyBag(b)
    ensures Turn(LegacySensativeStrip, b, Legacy.DescriptorEvent(d))
            == Some((b[CurrentStateField := StateOf(b)]
                      [UplinkReceivedField := if Sensative.CanHandleDeviceResponse(d.name) then BoolV(false) else FlagOf(b)],
                     DescriptorSends(b, d)))
  {
    var f := StripMerged(b);
    StripTurnForm(b, Legacy.DescriptorEvent(d));
    Legacy.StripDescriptorStep(f, d);
  }

  /** Setting the flag of such a bag keeps it one and leaves its state. */
  lemma FlagSet(b: Bag, v: bool)
    requires LegacyBag(b)
    ensures LegacyBag(b[UplinkReceivedField := BoolV(v)])
    ensures StateOf(b[UplinkReceivedField := BoolV(v)]) == StateOf(b)
    ensures Legacy.UplinkReceived(b[UplinkReceivedField := BoolV(v)]) == v
  {
  }

  /** Writing the state back and any flag keeps such a bag one. */
  lemma Refreshed(b: Bag, v: Value)
    requires LegacyBag(b) && v.BoolV?
    ensures LegacyBag(b[CurrentStateField := StateOf(b)][UplinkReceivedField := v])
  {
  }

  /** After an uplink report the flag is raised, and the state is the
      advanced one. */
  lemma ReportedPending(b: Bag, rd: Readings)
    requires LegacyBag(b)
    ensures Pending(Reported(b, rd))
    ensures StateOf(Reported(b, rd)) == StripPayloadV(Sensative.UplinkUpdate(Sensative.Instance(StateOf(b)), rd))
    ensures Reported(b, rd)[UplinkReceivedField := BoolV(true)] == Reported(b, rd)
  {
  }

  /** An uplink report overwrites the flag, whatever it was. */
  lemma ReportedFlagFree(b: Bag, v: Value, rd: Readings)
    ensures Reported(b[UplinkReceivedField := v], rd) == Reported(b, rd)
  {
    assert StateOf(b[UplinkReceivedField := v]) == StateOf(b);
  }

  /** The strip's turn on any other event: state and flag written back as
      they were, nothing sent. */
  lemma StripQuietTurn(b: Bag, e: Legacy.Event)
    requires LegacyBag(b)
    requires e.DownlinkEvent? || (e.ConsoleEvent? && !UplinkReport(e.message))
    ensures Turn(LegacySensativeStrip, b, e) == Some((b[CurrentStateField := StateOf(b)][UplinkReceivedField := FlagOf(b)], []))
  {
    var f := StripMerged(b);
    StripTurnForm(b, e);
    Legacy.StripQuietStep(f, e);
  }

  /** One turn on a bag of the older handlers, in closed form: `Em300th`
      only sets the flag; the strip advances its state on an uplink report,
      sends on a descriptor, and otherwise writes back what it was given. */
  function SpecTurn(t: LegacyHandler, b: Bag, e: Legacy.Event): Option<(Bag, seq<Emit>)> {
    if t == LegacyEm300th then Some((b[UplinkReceivedField := BoolV(!e.DescriptorEvent? && Legacy.UplinkReceived(b))], []))
    else match e
      case DescriptorEvent(d) =>
        Some((b[CurrentStateField := StateOf(b)]
               [UplinkReceivedField := if Sensative.CanHandleDeviceResponse(d.name) then BoolV(false) else FlagOf(b)],
              DescriptorSends(b, d)))
      case ConsoleEvent(m, rd) =>
        if UplinkReport(m) then Some((Reported(b, rd), []))
        else Some((b[CurrentStateField := StateOf(b)][UplinkReceivedField := FlagOf(b)], []))
      case DownlinkEvent(_) => Some((b[CurrentStateField := StateOf(b)][UplinkReceivedField := FlagOf(b)], []))
  }

  /** The closed-form turns for event `e`. */
  function SpecOn(e: Legacy.Event): TurnFn {
    (t: LegacyHandler, b: Bag) => SpecTurn(t, b, e)
  }

  /** On a bag of the older handlers, a handler's turn is its closed form. */
  lemma TurnIsSpec(t: LegacyHandler, b: Bag, e: Legacy.Event)
    requires LegacyBag(b)
    ensures Turn(t, b, e) == SpecTurn(t, b, e)
  {
    if t == LegacyEm300th {
      Em300Turn(b, e);
    } else {
      match e
      case DescriptorEvent(d) => StripDescriptorTurn(b, d);
      case ConsoleEvent(m, rd) =>
        if UplinkReport(m) {
          StripConsoleTurn(b, m, rd);
        } else {
          StripQuietTurn(b, e);
        }
      case DownlinkEvent(_) => StripQuietTurn(b, e);
    }
  }

  /** `f` and `g` agree on every bag of the older handlers. */
  ghost predicate Agree(f: TurnFn, g: TurnFn) {
    forall t, b {:trigger f(t, b)} :: LegacyBag(b) ==> f(t, b) == g(t, b)
  }

  /** Every turn of `g` on a bag of the older handlers goes through and
      leaves such a bag. */
  ghost predicate KeepsBags(g: TurnFn) {
    forall t, b {:trigger g(t, b)} :: LegacyBag(b) ==> KeepsLegacy(g(t, b))
  }

  /** Turns that agree on the bags they keep give the same dispatch. */
  lemma {:induction false} RunAgree(hs: seq<LegacyHandler>, b: Bag, f: TurnFn, g: TurnFn)
    requires LegacyBag(b) && Agree(f, g) && KeepsBags(g)
    ensures RunWith(hs, b, f) == RunWith(hs, b, g)
    decreases |hs|
  {
    if hs != [] {
      assert f(hs[0], b) == g(hs[0], b);
      assert KeepsLegacy(g(hs[0], b));
      RunAgree(hs[1..], g(hs[0], b).value.0, f, g);
    }
  }

  /** The closed-form turns keep bags of the older handlers. */
  lemma SpecOnKeeps(e: Legacy.Event)
    ensures KeepsBags(SpecOn(e))
  {
    forall t, b | LegacyBag(b)
      ensures KeepsLegacy(SpecOn(e)(t, b))
    {
      assert SpecOn(e)(t, b) == SpecTurn(t, b, e);
      if e.ConsoleEvent? && UplinkReport(e.message) {
        ReportedPending(b, e.rd);
      }
    }
  }

  /** The handlers' turns for `e` are the closed-form ones. */
  lemma TurnOnAgrees(e: Legacy.Event)
    ensures Agree(TurnOn(e), SpecOn(e))
  {
    forall t, b | LegacyBag(b)
      ensures TurnOn(e)(t, b) == SpecOn(e)(t, b)
    {
      TurnOnIs(t, b, e);
      TurnIsSpec(t, b, e);
    }
  }

  /** Dispatching an event from a bag of the older handlers is running the
      closed-form turns. */
  lemma RunAllIsSpec(hs: seq<LegacyHandler>, b: Bag, e: Legacy.Event)
    requires LegacyBag(b)
    ensures RunAll(hs, b, e) == RunWith(hs, b, SpecOn(e))
  {
    TurnOnAgrees(e);
    SpecOnKeeps(e);
    RunAgree(hs, b, TurnOn(e), SpecOn(e));
  }

  /** Two handlers in a row, neither raising. */
  lemma RunTwo(hs: seq<LegacyHandler>, b: Bag, turn: TurnFn, b1: Bag, s1: seq<Emit>, b2: Bag, s2: seq<Emit>)
    requires |hs| == 2 && turn(hs[0], b) == Some((b1, s1)) && turn(hs[1], b1) == Some((b2, s2))
    ensures RunWith(hs, b, turn) == Run(b2, s1 + s2, None)
  {
    assert hs[1..][0] == hs[1] && hs[1..][1..] == [];
    assert RunWith(hs[1..][1..], b2, turn) == Run(b2, [], None);
    assert RunWith(hs[1..], b1, turn) == Run(b2, s2 + [], None);
    assert s2 + [] == s2;
  }

  /** `Em300th` registered before the strip. */
  const Em300First: seq<LegacyHandler> := [LegacyEm300th, LegacySensativeStrip]

  /** The strip registered before `Em300th`. */
  const StripFirst: seq<LegacyHandler> := [LegacySensativeStrip, LegacyEm300th]

  /** With `Em300th` first, an uplink report still leaves the strip's
      state advanced and the flag raised: the strip raises it after
      `Em300th` has had its turn. */
  lemma Em300FirstConsole(b: Bag, m: ConsoleLog, rd: Readings)
    requires LegacyBag(b) && UplinkReport(m)
    ensures RunAll(Em300First, b, Legacy.ConsoleEvent(m, rd)) == Run(Reported(b, rd), [], None)
  {
    var c := Legacy.ConsoleEvent(m, rd);
    RunAllIsSpec(Em300First, b, c);
    Em300FirstConsoleSpec(b, m, rd);
  }

  /** `Em300FirstConsole` on the closed-form turns. */
  lemma Em300FirstConsoleSpec(b: Bag, m: ConsoleLog, rd: Readings)
    requires LegacyBag(b) && UplinkReport(m)
    ensures RunWith(Em300First, b, SpecOn(Legacy.ConsoleEvent(m, rd))) == Run(Reported(b, rd), [], None)
  {
    var c := Legacy.ConsoleEvent(m, rd);
    var b1 := b[UplinkReceivedField := BoolV(Legacy.UplinkReceived(b))];
    assert SpecOn(c)(LegacyEm300th, b) == Some((b1, []));
    assert SpecOn(c)(LegacySensativeStrip, b1) == Some((Reported(b1, rd), []));
    ReportedFlagFree(b, BoolV(Legacy.UplinkReceived(b)), rd);
    RunTwo(Em300First, b, SpecOn(c), b1, [], Reported(b, rd), []);
  }

  /** With `Em300th` first, no descriptor makes the strip send: `Em300th`
      clears the shared flag before the strip looks at it. */
  lemma Em300FirstNeverSends(b: Bag, d: Descriptor)
    requires LegacyBag(b)
    ensures RunAll(Em300First, b, Legacy.DescriptorEvent(d)).emits == []
  {
    RunAllIsSpec(Em300First, b, Legacy.DescriptorEvent(d));
    Em300FirstDescriptorSpec(b, d);
  }

  /** `Em300FirstNeverSends` on the closed-form turns. */
  lemma Em300FirstDescriptorSpec(b: Bag, d: Descriptor)
    requires LegacyBag(b)
    ensures RunWith(Em300First, b, SpecOn(Legacy.DescriptorEvent(d))).emits == []
  {
    var de := Legacy.DescriptorEvent(d);
    var b1 := b[UplinkReceivedField := BoolV(false)];
    var b2 := b1[CurrentStateField := StateOf(b1)]
                [UplinkReceivedField := if Sensative.CanHandleDeviceResponse(d.name) then BoolV(false) else FlagOf(b1)];
    assert SpecOn(de)(LegacyEm300th, b) == Some((b1, []));
    assert !Legacy.UplinkReceived(b1);
    assert SpecOn(de)(LegacySensativeStrip, b1) == Some((b2, []));
    RunTwo(Em300First, b, SpecOn(de), b1, [], b2, []);
  }

  /** The handlers share one bag, and `_uplinkReceived` is a field of both
      older handlers: with `Em300th` first, the descriptor that follows an
      uplink report reaches `Em300th` first, which clears the flag, so the
      strip never sends. */
  lemma SharedFlagSwallowsUplink(b: Bag, m: ConsoleLog, rd: Readings, d: Descriptor)
    requires LegacyBag(b) && UplinkReport(m)
    ensures var console := RunAll(Em300First, b, Legacy.ConsoleEvent(m, rd));
            Pending(console.bag) && RunAll(Em300First, console.bag, Legacy.DescriptorEvent(d)).emits == []
  {
    Em300FirstConsole(b, m, rd);
    ReportedPending(b, rd);
    Em300FirstNeverSends(Reported(b, rd), d);
  }

  /** With the strip first, an uplink report leaves the state advanced and
      the flag raised: `Em300th` keeps both. */
  lemma StripFirstConsole(b: Bag, m: ConsoleLog, rd: Readings)
    requires LegacyBag(b) && UplinkReport(m)
    ensures RunAll(StripFirst, b, Legacy.ConsoleEvent(m, rd)) == Run(Reported(b, rd), [], None)
  {
    RunAllIsSpec(StripFirst, b, Legacy.ConsoleEvent(m, rd));
    StripFirstConsoleSpec(b, m, rd);
  }

  /** `StripFirstConsole` on the closed-form turns. */
  lemma StripFirstConsoleSpec(b: Bag, m: ConsoleLog, rd: Readings)
    requires LegacyBag(b) && UplinkReport(m)
    ensures RunWith(StripFirst, b, SpecOn(Legacy.ConsoleEvent(m, rd))) == Run(Reported(b, rd), [], None)
  {
    var c := Legacy.ConsoleEvent(m, rd);
    var r := Reported(b, rd);
    ReportedPending(b, rd);
    assert SpecOn(c)(LegacySensativeStrip, b) == Some((r, []));
    assert SpecOn(c)(LegacyEm300th, r) == Some((r, []));
    RunTwo(StripFirst, b, SpecOn(c), r, [], r, []);
  }

  /** With the strip first, a descriptor sends what the strip's turn
      sends: `Em300th` sends nothing. */
  lemma StripFirstDescriptor(b: Bag, d: Descriptor)
    requires LegacyBag(b)
    ensures RunAll(StripFirst, b, Legacy.DescriptorEvent(d)).emits == DescriptorSends(b, d)
  {
    RunAllIsSpec(StripFirst, b, Legacy.DescriptorEvent(d));
    StripFirstDescriptorSpec(b, d);
  }

  /** `StripFirstDescriptor` on the closed-form turns. */
  lemma StripFirstDescriptorSpec(b: Bag, d: Descriptor)
    requires LegacyBag(b)
    ensures RunWith(StripFirst, b, SpecOn(Legacy.DescriptorEvent(d))).emits == DescriptorSends(b, d)
  {
    var de := Legacy.DescriptorEvent(d);
    var v := if Sensative.CanHandleDeviceResponse(d.name) then BoolV(false) else FlagOf(b);
    var b1 := b[CurrentStateField := StateOf(b)][UplinkReceivedField := v];
    assert SpecOn(de)(LegacySensativeStrip, b) == Some((b1, DescriptorSends(b, d)));
    assert SpecOn(de)(LegacyEm300th, b1) == Some((b1[UplinkReceivedField := BoolV(false)], []));
    RunTwo(StripFirst, b, SpecOn(de), b1, DescriptorSends(b, d), b1[UplinkReceivedField := BoolV(false)], []);
    assert DescriptorSends(b, d) + [] == DescriptorSends(b, d);
  }

  /** With the strip first, the descriptor after an uplink report for a
      strip name sends the hex text of the state the report advanced to. */
  lemma StripFirstSends(b: Bag, m: ConsoleLog, rd: Readings, d: Descriptor)
    requires LegacyBag(b) && UplinkReport(m) && Sensative.CanHandleDeviceResponse(d.name)
    ensures var console := RunAll(StripFirst, b, Legacy.ConsoleEvent(m, rd));
            var state := Sensative.UplinkUpdate(Sensative.Instance(StateOf(b)), rd);
            RunAll(StripFirst, console.bag, Legacy.DescriptorEvent(d)).emits
            == [SentUplink(d.id as int, ToHexString(SP.Frame(state)))]
  {
    StripFirstConsole(b, m, rd);
    ReportedPending(b, rd);
    StripFirstDescriptor(Reported(b, rd), d);
  }

  /** A downlink for a name no descriptor carries: as written, any handler
      at all makes it raise `NullReferenceException`; with the console's
      guard it changes nothing. */
  lemma UnknownDownlinkName(hs: seq<LegacyHandler>, data: map<int, Bag>, downlink: ReceiveDownlink)
    ensures var r := Dispatch(hs, data, None, Legacy.DownlinkEvent(downlink), false);
            r.0 == data && (r.1.fault == Some(NullReferenceException) <==> hs != [])
    ensures var r := Dispatch(hs, data, None, Legacy.DownlinkEvent(downlink), true);
            r.0 == data && r.1.fault.None? && r.1.emits == []
  {
  }
}
