/** The Dongle Connect P1 coordinator and its UDP protocol. Unlike the EARN-E
    variant it overwrites the serial on every packet carrying one, reads the
    software version from `sw_version` and stores it unconverted, and does not
    check that the payload is an object (see `Handled`). */
module P1Coordinator {
  import opened Json
  import opened Wire
  import Snapshot

  /** The coordinator's observable state; `listening` is `_transport is not None`. */
  datatype Coordinator = Coordinator(
    host: string,
    data: Object,
    serial: JsonValue,
    model: JsonValue,
    swVersion: JsonValue,
    listening: bool)

  /** `P1MeterCoordinator(hass, host)`: no serial is seeded. */
  function Create(host: string): (c: Coordinator)
    ensures c.host == host && c.data == map[] && !c.listening
    ensures c.serial == JNull && c.model == JNull && c.swVersion == JNull
  {
    Coordinator(host, map[], JNull, JNull, JNull, false)
  }

  /** The datagrams this protocol is modelled for: one from the coordinator's
      host that decodes must decode to an object, because the source applies
      `in` and `dict.update` to the payload without checking its type. */
  predicate Handled(host: string, d: Datagram) {
    d.source == host && d.payload.Some? ==> d.payload.value.JObj?
  }

  /** `datagram_received`: drop foreign and undecodable packets; overwrite
      serial, model and software version whenever present; merge the payload. */
  function Receive(c: Coordinator, d: Datagram): (r: Coordinator)
    requires Handled(c.host, d)
    ensures r.host == c.host && r.listening == c.listening
    ensures d.source != c.host || d.payload.None? ==> r == c
    ensures ObjectFrom(c.host, d).Some? ==>
      Snapshot.Overrides(c.data, ObjectFrom(c.host, d).value, r.data)
    ensures ObjectFrom(c.host, d).Some? && "serial" in ObjectFrom(c.host, d).value ==>
      r.serial == ObjectFrom(c.host, d).value["serial"]
    ensures ObjectFrom(c.host, d).Some? && "model" in ObjectFrom(c.host, d).value ==>
      r.model == ObjectFrom(c.host, d).value["model"]
    ensures ObjectFrom(c.host, d).Some? && "sw_version" in ObjectFrom(c.host, d).value ==>
      r.swVersion == ObjectFrom(c.host, d).value["sw_version"]
    ensures r.serial != c.serial || r.model != c.model || r.swVersion != c.swVersion ==>
      ObjectFrom(c.host, d).Some?
  {
    match ObjectFrom(c.host, d)
    case None => c
    case Some(p) =>
      c.(serial := if "serial" in p then p["serial"] else c.serial,
         model := if "model" in p then p["model"] else c.model,
         swVersion := if "sw_version" in p then p["sw_version"] else c.swVersion,
         data := Snapshot.Merge(c.data, p))
  }

  /** Every datagram of `ds` is one the protocol is modelled for. */
  predicate AllHandled(host: string, ds: seq<Datagram>) {
    forall i :: 0 <= i < |ds| ==> Handled(host, ds[i])
  }

  /** The state after the datagrams `ds` have been handled in order. */
  function Run(c: Coordinator, ds: seq<Datagram>): (r: Coordinator)
    requires AllHandled(c.host, ds)
    ensures r.host == c.host && r.listening == c.listening
  {
    if |ds| == 0 then c else Receive(Run(c, ds[..|ds| - 1]), ds[|ds| - 1])
  }

  /** The outcome of `async_start`. */
  datatype StartResult = Started(running: Coordinator) | StartFailed(error: Exception)

  /** The ports a coordinator's open transport holds. */
  function Ports(c: Coordinator): set<nat> {
    if c.listening then {DefaultPort} else {}
  }

  /** `async_start`: bind the default port on `s`; on success keep the
      transport, which then holds that port. */
  function Start(c: Coordinator, s: Sockets): (r: StartResult)
    ensures r.Started? <==> DefaultPort !in s.held && s.fault.None?
    ensures r.Started? ==> r.running == c.(listening := true) && Ports(r.running) == {DefaultPort}
    ensures DefaultPort in s.held ==> r == StartFailed(OSError)
    ensures DefaultPort !in s.held && s.fault.Some? ==> r == StartFailed(s.fault.value)
  {
    match BindPort(DefaultPort, s)
    case Bound => Started(c.(listening := true))
    case BindFailed(e) => StartFailed(e)
  }

  /** The state after `async_stop` and whether it closed a transport. */
  datatype StopResult = StopResult(stopped: Coordinator, closed: bool)

  /** `async_stop`: close the transport if there is one and forget it. */
  function Stop(c: Coordinator): (r: StopResult)
    ensures !r.stopped.listening
    ensures r.closed <==> c.listening
    ensures r.stopped == c.(listening := false) && Ports(r.stopped) == {}
  {
    if c.listening then StopResult(c.(listening := false), true) else StopResult(c, false)
  }

  /** Handling the same packet twice leaves the state handling it once gives. */
  lemma ReceiveIdempotent(c: Coordinator, d: Datagram)
    requires Handled(c.host, d)
    ensures Receive(Receive(c, d), d) == Receive(c, d)
  {
    match ObjectFrom(c.host, d)
    case None =>
    case Some(p) =>
      Snapshot.MergeIdempotent(c.data, p);
  }

  /** The snapshot after a run is the merge of the accepted payloads. */
  lemma {:induction false} RunMergesAcceptedPayloads(c: Coordinator, ds: seq<Datagram>)
    requires AllHandled(c.host, ds)
    ensures Run(c, ds).data == Snapshot.MergeAll(c.data, ObjectsFrom(c.host, ds))
  {
    if |ds| > 0 {
      RunMergesAcceptedPayloads(c, ds[..|ds| - 1]);
    }
  }

  /** Serial, model and software version after a run are the values of the last
      accepted packet carrying each key (last write wins, for the serial too),
      or the previous values when no packet carries the key. */
  lemma {:induction false} IdentityIsLatest(c: Coordinator, ds: seq<Datagram>)
    requires AllHandled(c.host, ds)
    ensures var latest := Snapshot.MergeAll(map[], ObjectsFrom(c.host, ds));
      && Run(c, ds).serial == (if "serial" in latest then latest["serial"] else c.serial)
      && Run(c, ds).model == (if "model" in latest then latest["model"] else c.model)
      && Run(c, ds).swVersion == (if "sw_version" in latest then latest["sw_version"] else c.swVersion)
  {
    if |ds| > 0 {
      IdentityIsLatest(c, ds[..|ds| - 1]);
    }
  }

  /** A freshly built coordinator has an empty snapshot and no identity, and
      stopping it, or stopping twice, closes nothing more than once. */
  lemma CreateAndStop(c: Coordinator, host: string)
    ensures Create(host).data == map[] && Create(host).serial == JNull
    ensures Create(host).model == JNull && Create(host).swVersion == JNull
    ensures Stop(Create(host)) == StopResult(Create(host), false)
    ensures Stop(Stop(c).stopped) == StopResult(Stop(c).stopped, false)
  {
  }
}
