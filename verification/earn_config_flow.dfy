/** The EARN-E config flow: auto-discovery on the user step, manual validation
    of an entered host, discovery confirmation, and reconfiguration with its
    explicit duplicate check. Every listen attempt runs the listener model on
    the network the step sees. */
module EarnConfigFlow {
  import opened Json
  import opened Wire
  import opened Listener
  import opened Flow

  /** Seconds an auto-discovery waits on the user step. */
  const DiscoveryTimeout: nat := 10
  /** Seconds a validation of an entered host waits. */
  const ValidationTimeout: nat := 65

  /** What one listen attempt meets: the host's sockets at bind time and the
      datagrams that arrive after binding. */
  datatype Network = Network(sockets: Sockets, arrivals: seq<Arrival>)

  /** `_async_listen_for_device()` with its defaults: no filter, short timeout. */
  function Discovery(net: Network): ListenOutcome {
    ListenForDevice(net.sockets, None, DiscoveryTimeout, net.arrivals).outcome
  }

  /** `_async_listen_for_device(host_filter=host, timeout=VALIDATION_TIMEOUT)`. */
  function Validation(host: string, net: Network): ListenOutcome {
    ListenForDevice(net.sockets, Some(host), ValidationTimeout, net.arrivals).outcome
  }

  /** The flow's own state: `_discovered_info`. */
  datatype FlowState = FlowState(discovered: Option<DeviceInfo>)

  function Title(host: string): string {
    "EARN-E P1 (" + host + ")"
  }

  /** `{CONF_HOST: host, "serial": serial}`. */
  function EntryData(host: string, serial: JsonValue): Object {
    map[ConfHost := JStr(host), "serial" := serial]
  }

  /** `_async_validate_and_create`: listen for the entered host; a bind
      `OSError` or a timeout re-shows the form with `cannot_connect`, any other
      exception with `unknown`; a found device becomes an entry keyed
      `serial or host` unless that key is already configured. */
  function ValidateAndCreate(input: Object, net: Network, entries: seq<ConfigEntry>): (r: FlowResult)
    requires HostInput(input)
    ensures var host := input[ConfHost].s; var outcome := Validation(host, net);
      && (outcome.TimedOut? || outcome == Failed(OSError) ==> r == ShowForm(UserStep, Some(CannotConnect), None))
      && (outcome == Failed(OtherError) ==> r == ShowForm(UserStep, Some(Unknown), None))
      && (r.CreateEntry? || r.AbortAlreadyConfigured? <==> outcome.Found?)
      && (r.CreateEntry? ==>
            && r.title == Title(host)
            && r.data == EntryData(host, outcome.info.serial)
            && r.uniqueId == UniqueIdFor(outcome.info.serial, host)
            && !Configured(entries, r.uniqueId))
      && (r.AbortAlreadyConfigured? ==> Configured(entries, UniqueIdFor(outcome.info.serial, host)))
  {
    var host := input[ConfHost].s;
    match Validation(host, net)
    case Failed(OSError) => ShowForm(UserStep, Some(CannotConnect), None)
    case Failed(OtherError) => ShowForm(UserStep, Some(Unknown), None)
    case TimedOut => ShowForm(UserStep, Some(CannotConnect), None)
    case Found(info) =>
      var uid := UniqueIdFor(info.serial, host);
      if Configured(entries, uid) then AbortAlreadyConfigured
      else CreateEntry(Title(host), EntryData(host, info.serial), uid)
  }

  /** `async_step_discovery_confirm`: show the confirmation form, or on
      confirmation create the entry for the discovered device. */
  function StepDiscoveryConfirm(flow: FlowState, input: Option<Object>, entries: seq<ConfigEntry>): (r: FlowResult)
    requires flow.discovered.Some?
    ensures var info := flow.discovered.value;
      && (input.None? <==> r.ShowForm?)
      && (input.None? ==> r == ShowForm(DiscoveryConfirmStep, None, Some(JStr(info.host))))
      && (r.AbortAlreadyConfigured? <==> input.Some? && Configured(entries, UniqueIdFor(info.serial, info.host)))
      && (r.CreateEntry? <==> input.Some? && !Configured(entries, UniqueIdFor(info.serial, info.host)))
      && (r.CreateEntry? ==>
            && r.data == EntryData(info.host, info.serial)
            && r.uniqueId == UniqueIdFor(info.serial, info.host)
            && r.title == Title(info.host))
  {
    var info := flow.discovered.value;
    if input.Some? then
      var uid := UniqueIdFor(info.serial, info.host);
      if Configured(entries, uid) then AbortAlreadyConfigured
      else CreateEntry(Title(info.host), EntryData(info.host, info.serial), uid)
    else
      ShowForm(DiscoveryConfirmStep, None, Some(JStr(info.host)))
  }

  /** `async_step_user`: with input, validate it; without, try auto-discovery,
      where a bind `OSError` counts as nothing found. A found device leads to
      the confirmation form; nothing found leads to the manual form. Any other
      exception escapes the step. */
  function StepUser(flow: FlowState, input: Option<Object>, net: Network, entries: seq<ConfigEntry>): (r: (FlowState, FlowResult))
    requires input.Some? ==> HostInput(input.value)
    ensures input.Some? ==> r == (flow, ValidateAndCreate(input.value, net, entries))
    ensures input.None? ==> !r.1.CreateEntry? && !r.1.AbortAlreadyConfigured?
    ensures input.None? && (Discovery(net).TimedOut? || Discovery(net) == Failed(OSError)) ==>
      r == (flow, ShowForm(UserStep, None, None))
    ensures input.None? && Discovery(net).Found? ==>
      r == (FlowState(Some(Discovery(net).info)), ShowForm(DiscoveryConfirmStep, None, Some(JStr(Discovery(net).info.host))))
    ensures input.None? && Discovery(net) == Failed(OtherError) ==> r == (flow, Raises(OtherError))
  {
    match input
    case Some(inp) => (flow, ValidateAndCreate(inp, net, entries))
    case None =>
      match Discovery(net)
      case Found(info) =>
        var next := FlowState(Some(info));
        (next, StepDiscoveryConfirm(next, None, entries))
      case TimedOut => (flow, ShowForm(UserStep, None, None))
      case Failed(OSError) => (flow, ShowForm(UserStep, None, None))
      case Failed(OtherError) => (flow, Raises(OtherError))
  }

  /** The serial a reconfiguration stores: the freshly validated one when it is
      truthy, otherwise the one already stored (a bind `OSError` and a timeout
      both fall back to it). */
  function ReconfiguredSerial(entry: ConfigEntry, outcome: ListenOutcome): (serial: JsonValue)
    ensures outcome.Found? && Truthy(outcome.info.serial) ==> serial == outcome.info.serial
    ensures !(outcome.Found? && Truthy(outcome.info.serial)) ==> serial == Get(entry.data, "serial")
    ensures Truthy(serial) <==>
      (outcome.Found? && Truthy(outcome.info.serial)) || Truthy(Get(entry.data, "serial"))
  {
    if outcome.Found? && Truthy(outcome.info.serial) then outcome.info.serial else Get(entry.data, "serial")
  }

  /** `async_step_reconfigure`. */
  function StepReconfigure(entry: ConfigEntry, input: Option<Object>, net: Network, entries: seq<ConfigEntry>): (r: FlowResult)
    requires input.None? ==> ConfHost in entry.data
    requires input.Some? ==> HostInput(input.value)
    ensures r.ShowForm? ==> r.step == ReconfigureStep && r.error != Some(CannotConnect)
    ensures input.None? ==> r == ShowForm(ReconfigureStep, None, Some(entry.data[ConfHost]))
    ensures input.Some? ==>
      var host := input.value[ConfHost].s;
      var outcome := Validation(host, net);
      var uid := UniqueIdFor(ReconfiguredSerial(entry, outcome), host);
      && (outcome == Failed(OtherError) ==> r == ShowForm(ReconfigureStep, Some(Unknown), Some(JStr(host))))
      && (r.ShowForm? <==> outcome == Failed(OtherError))
      && (outcome != Failed(OtherError) ==> (r.AbortAlreadyConfigured? <==> ClaimedByOther(entries, entry.entryId, uid)))
      && (r.UpdateAndReload? <==> outcome != Failed(OtherError) && !ClaimedByOther(entries, entry.entryId, uid))
      && (r.UpdateAndReload? ==>
            && r.entryId == entry.entryId
            && r.uniqueId == uid
            && r.data.Keys == entry.data.Keys + {ConfHost, "serial"}
            && r.data[ConfHost] == JStr(host)
            && r.data["serial"] == ReconfiguredSerial(entry, outcome)
            && (forall k :: k in entry.data && k != ConfHost && k != "serial" ==> r.data[k] == entry.data[k]))
    ensures !r.CreateEntry? && !r.Raises?
  {
    match input
    case None => ShowForm(ReconfigureStep, None, Some(entry.data[ConfHost]))
    case Some(inp) =>
      var host := inp[ConfHost].s;
      var outcome := Validation(host, net);
      if outcome == Failed(OtherError) then
        ShowForm(ReconfigureStep, Some(Unknown), Some(JStr(host)))
      else
        var info :=
          (match outcome
           case Found(i) => Some(i)
           case Failed(_) => Some(DeviceInfo(host, JNull))
           case TimedOut => None);
        var validated := if info.Some? && Truthy(info.value.serial) then info.value.serial else JNull;
        var serial := if validated == JNull then Get(entry.data, "serial") else validated;
        var uid := UniqueIdFor(serial, host);
        if ClaimedByOther(entries, entry.entryId, uid) then AbortAlreadyConfigured
        else UpdateAndReload(entry.entryId, entry.data + map[ConfHost := JStr(host), "serial" := serial], uid)
  }

  /** An entry is created by manual validation only for a device seen within the
      validation timeout: a meter-like object arrived from the entered host (from
      any host when the entered host is empty) and its `serial` is the one
      stored. */
  lemma CreatedEntryWasObserved(input: Object, net: Network, entries: seq<ConfigEntry>)
    requires HostInput(input)
    requires ValidateAndCreate(input, net, entries).CreateEntry?
    ensures var host := input[ConfHost].s; var r := ValidateAndCreate(input, net, entries);
      exists i :: (0 <= i < |net.arrivals| && net.arrivals[i].at < ValidationTimeout * 1000 &&
        MeterLike(net.arrivals[i].datagram) &&
        (host != "" ==> net.arrivals[i].datagram.source == host) &&
        r.data["serial"] == Get(net.arrivals[i].datagram.payload.value.fields, "serial"))
  {
    var host := input[ConfHost].s;
    var ds := Delivered(net.arrivals, ValidationTimeout * 1000);
    assert Resolve(Some(host), ds).Some?;
    FoundComesFromFilteredSource(Some(host), ds);
    var k :| 0 <= k < |ds| && ds[k].source == Resolve(Some(host), ds).value.host &&
      MeterLike(ds[k]) && Resolve(Some(host), ds).value.serial == Get(ds[k].payload.value.fields, "serial");
    assert ds[k] in ds;
    var i :| 0 <= i < |net.arrivals| && net.arrivals[i].at < ValidationTimeout * 1000 && net.arrivals[i].datagram == ds[k];
  }

  /** Confirming a discovered device and validating its host by hand apply the
      same rule: same entry, same unique id, same duplicate check. */
  lemma ConfirmMatchesManualEntry(info: DeviceInfo, input: Object, net: Network, entries: seq<ConfigEntry>)
    requires HostInput(input) && input[ConfHost].s == info.host
    requires Validation(info.host, net) == Found(info)
    ensures ValidateAndCreate(input, net, entries) == StepDiscoveryConfirm(FlowState(Some(info)), Some(map[]), entries)
  {
  }

  /** A reconfiguration that commits leaves no two entries sharing a unique id,
      if none did before. */
  lemma ReconfigureKeepsUniqueIdsDistinct(entry: ConfigEntry, input: Object, net: Network, entries: seq<ConfigEntry>)
    requires HostInput(input)
    requires DistinctUniqueIds(entries)
    requires StepReconfigure(entry, Some(input), net, entries).UpdateAndReload?
    ensures var r := StepReconfigure(entry, Some(input), net, entries);
      DistinctUniqueIds(Updated(entries, entry.entryId, r.data, r.uniqueId))
  {
    var r := StepReconfigure(entry, Some(input), net, entries);
    assert !ClaimedByOther(entries, entry.entryId, r.uniqueId);
    UpdatePreservesDistinctUniqueIds(entries, entry.entryId, r.data, r.uniqueId);
  }

  /** On a network whose datagrams are listed in arrival order, confirming what
      auto-discovery found creates the entry that validating the discovered host
      by hand on the same network creates: the packet discovery resolved on is
      also the first one the host-filtered validation accepts. */
  lemma {:induction false} AutoDiscoveryMatchesManualEntry(flow: FlowState, net: Network, confirm: Object, entries: seq<ConfigEntry>)
    requires InArrivalOrder(net.arrivals)
    requires Discovery(net).Found?
    ensures var info := Discovery(net).info;
      && StepUser(flow, None, net, entries) ==
           (FlowState(Some(info)), ShowForm(DiscoveryConfirmStep, None, Some(JStr(info.host))))
      && StepDiscoveryConfirm(FlowState(Some(info)), Some(confirm), entries) ==
           ValidateAndCreate(map[ConfHost := JStr(info.host)], net, entries)
  {
    var info := Discovery(net).info;
    var arr := net.arrivals;
    var quick := DiscoveryTimeout * 1000;
    var long := ValidationTimeout * 1000;
    var filter := Some(info.host);
    assert BindPort(DefaultPort, net.sockets).Bound?;
    ResolvesOnFirstArrival(None, arr, quick);
    var i :| FirstArrival(None, arr, quick, i) &&
      Resolve(None, Delivered(arr, quick)) == Candidate(None, arr[i].datagram);
    assert Candidate(None, arr[i].datagram) == Some(info);
    assert arr[i].datagram.source == info.host;
    assert AcceptedArrival(filter, arr, long, i);
    forall j | 0 <= j < i
      ensures !AcceptedArrival(filter, arr, long, j)
    {
      if AcceptedArrival(filter, arr, long, j) {
        assert arr[j].at <= arr[i].at;
        assert AcceptedArrival(None, arr, quick, j);
        assert false;
      }
    }
    assert FirstArrival(filter, arr, long, i);
    assert Validation(info.host, net) == Found(info);
    ConfirmMatchesManualEntry(info, map[ConfHost := JStr(info.host)], net, entries);
  }

  /** Creating an entry by manual validation or by confirmation never makes two
      entries share a unique id, if none did before. */
  lemma CreatedEntryKeepsUniqueIdsDistinct(flow: FlowState, input: Object, net: Network, entries: seq<ConfigEntry>, entryId: string)
    requires HostInput(input)
    requires flow.discovered.Some?
    requires DistinctUniqueIds(entries)
    ensures DistinctUniqueIds(Added(entries, entryId, ValidateAndCreate(input, net, entries)))
    ensures DistinctUniqueIds(Added(entries, entryId, StepDiscoveryConfirm(flow, Some(input), entries)))
  {
    var r := ValidateAndCreate(input, net, entries);
    if r.CreateEntry? {
      CreatePreservesDistinctUniqueIds(entries, ConfigEntry(entryId, r.uniqueId, r.data));
    }
    var c := StepDiscoveryConfirm(flow, Some(input), entries);
    if c.CreateEntry? {
      CreatePreservesDistinctUniqueIds(entries, ConfigEntry(entryId, c.uniqueId, c.data));
    }
  }
}
