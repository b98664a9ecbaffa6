/** Properties that span several components: the two coordinators side by
    side, the single listening port shared by listener and coordinator, and the
    unique id carried from a created entry into the running coordinator. */
module Scenarios {
  import opened Json
  import opened Wire
  import opened Listener
  import opened Flow
  import opened Lifecycle
  import Earn = EarnCoordinator
  import P1 = P1Coordinator
  import EarnConfigFlow
  import EarnSetup

  /** Two packets from the host carrying serials "A" then "B": the EARN-E
      coordinator keeps "A", the P1 coordinator ends with "B", and both
      snapshots hold "B" under `"serial"`. */
  lemma SerialPoliciesDiffer(host: string, str: JsonValue -> string)
    ensures
      var ds := [Datagram(host, Some(JObj(map["serial" := JStr("A")]))),
                 Datagram(host, Some(JObj(map["serial" := JStr("B")])))];
      && Earn.Run(Earn.Create(host, JNull), ds, str).serial == JStr("A")
      && "serial" in Earn.Run(Earn.Create(host, JNull), ds, str).data
      && Earn.Run(Earn.Create(host, JNull), ds, str).data["serial"] == JStr("B")
      && P1.Run(P1.Create(host), ds).serial == JStr("B")
      && "serial" in P1.Run(P1.Create(host), ds).data
      && P1.Run(P1.Create(host), ds).data["serial"] == JStr("B")
  {
    var ds := [Datagram(host, Some(JObj(map["serial" := JStr("A")]))),
               Datagram(host, Some(JObj(map["serial" := JStr("B")])))];
    assert ds[..1][..0] == [];
    assert ds[..1] == [ds[0]];
    var e0 := Earn.Create(host, JNull);
    var e1 := Earn.Receive(e0, ds[0], str);
    assert Earn.Run(e0, ds[..1], str) == e1;
    assert e1.serial == JStr("A");
    var e2 := Earn.Receive(e1, ds[1], str);
    assert Earn.Run(e0, ds, str) == e2;
    assert e2.data["serial"] == JStr("B");
    var p0 := P1.Create(host);
    var p1 := P1.Receive(p0, ds[0]);
    assert P1.Run(p0, ds[..1]) == p1;
    var p2 := P1.Receive(p1, ds[1]);
    assert P1.Run(p0, ds) == p2;
  }

  /** Partial telegrams accumulate: a power reading followed by an energy
      reading leaves both in the snapshot. */
  lemma PartialTelegramsAccumulate(host: string, str: JsonValue -> string, power: JsonValue, energy: JsonValue)
    ensures
      var ds := [Datagram(host, Some(JObj(map["power_delivered" := power]))),
                 Datagram(host, Some(JObj(map["energy_delivered_tariff1" := energy])))];
      Earn.Run(Earn.Create(host, JNull), ds, str).data ==
        map["power_delivered" := power, "energy_delivered_tariff1" := energy]
  {
    var ds := [Datagram(host, Some(JObj(map["power_delivered" := power]))),
               Datagram(host, Some(JObj(map["energy_delivered_tariff1" := energy])))];
    assert ds[..1][..0] == [];
    assert ds[..1] == [ds[0]];
    var e0 := Earn.Create(host, JNull);
    var e1 := Earn.Receive(e0, ds[0], str);
    assert Earn.Run(e0, ds[..1], str) == e1;
    assert e1.data == map["power_delivered" := power];
    assert Earn.Run(e0, ds, str) == Earn.Receive(e1, ds[1], str);
  }

  /** A loaded entry's coordinator holds the default port, so a listener
      started on the same host cannot bind it: it fails with `OSError` rather
      than timing out, and has no transport to close. */
  lemma ListenerBlockedByRunningCoordinator(entry: ConfigEntry, s: Sockets, filter: Option<string>, timeout: nat, arrivals: seq<Arrival>)
    requires HostInput(entry.data)
    requires BindPort(DefaultPort, s).Bound?
    ensures var setup := EarnSetup.SetupEntry(entry, s);
      && setup.outcome.Loaded?
      && ListenForDevice(Holding(s, Earn.Ports(setup.outcome.runtime)), filter, timeout, arrivals) == ListenRun(Failed(OSError), 0)
  {
  }

  /** Reconfiguring a loaded entry while its own coordinator holds the port
      skips validation: whatever arrives, the entry moves to the new host with
      its stored serial, unless another entry already holds the resulting
      unique id. */
  lemma ReconfigureWhilePortHeld(entry: ConfigEntry, s: Sockets, input: Object, arrivals: seq<Arrival>, entries: seq<ConfigEntry>)
    requires HostInput(entry.data) && HostInput(input)
    requires BindPort(DefaultPort, s).Bound?
    ensures var host := input[ConfHost].s;
      var serial := Get(entry.data, "serial");
      var setup := EarnSetup.SetupEntry(entry, s);
      var net := EarnConfigFlow.Network(Holding(s, Earn.Ports(setup.outcome.runtime)), arrivals);
      var r := EarnConfigFlow.StepReconfigure(entry, Some(input), net, entries);
      && setup.outcome.Loaded?
      && (r.AbortAlreadyConfigured? <==> ClaimedByOther(entries, entry.entryId, UniqueIdFor(serial, host)))
      && (!r.AbortAlreadyConfigured? ==>
            r.UpdateAndReload? && r.data[ConfHost] == JStr(host) && r.data["serial"] == serial &&
            r.uniqueId == UniqueIdFor(serial, host))
  {
  }

  /** The entry a validation creates, once set up, runs a coordinator whose
      identifier, and so every sensor unique id prefix, is the entry's unique
      id. */
  lemma CreatedEntryRunsUnderItsUniqueId(input: Object, net: EarnConfigFlow.Network, entries: seq<ConfigEntry>, entryId: string, s: Sockets)
    requires HostInput(input)
    requires BindPort(DefaultPort, s).Bound?
    requires EarnConfigFlow.ValidateAndCreate(input, net, entries).CreateEntry?
    ensures var r := EarnConfigFlow.ValidateAndCreate(input, net, entries);
      var setup := EarnSetup.SetupEntry(ConfigEntry(entryId, r.uniqueId, r.data), s);
      setup.outcome.Loaded? && setup.outcome.runtime.identifier == r.uniqueId
  {
  }
}
