/** The EARN-E coordinator and its UDP protocol: per-datagram state update,
    construction with an optional seeded serial, start and stop of the listener.

    The serial is sticky: it is taken from a packet only while it is still None,
    so that the device-registry identity stays stable. */
module EarnCoordinator {
  import opened Json
  import opened Wire
  import Snapshot

  /** The coordinator's observable state. `listening` stands for
      `_transport is not None`. */
  datatype Coordinator = Coordinator(
    host: string,
    data: Object,
    serial: JsonValue,
    identifier: JsonValue,
    model: JsonValue,
    swVersion: Option<string>,
    listening: bool)

  /** `EarnEP1Coordinator(hass, entry, host, serial=serial)`. */
  function Create(host: string, serial: JsonValue): (c: Coordinator)
    ensures c.host == host && c.serial == serial && c.data == map[] && !c.listening
    ensures c.identifier == (if Truthy(serial) then serial else JStr(host))
    ensures c.model == JNull && c.swVersion == None
  {
    Coordinator(host, map[], serial, Or(serial, JStr(host)), JNull, None, false)
  }

  /** `datagram_received`: drop foreign, undecodable and non-object packets;
      take the serial only while none is held; overwrite model and software
      version; merge the payload into the snapshot. */
  function Receive(c: Coordinator, d: Datagram, str: JsonValue -> string): (r: Coordinator)
    ensures r.host == c.host && r.identifier == c.identifier && r.listening == c.listening
    ensures ObjectFrom(c.host, d).None? ==> r == c
    ensures d.source != c.host ==> r == c
    ensures ObjectFrom(c.host, d).Some? ==>
      Snapshot.Overrides(c.data, ObjectFrom(c.host, d).value, r.data)
    ensures c.serial != JNull ==> r.serial == c.serial
    ensures c.serial == JNull && ObjectFrom(c.host, d).Some? && "serial" in ObjectFrom(c.host, d).value ==>
      r.serial == ObjectFrom(c.host, d).value["serial"]
    ensures r.serial != c.serial ==>
      c.serial == JNull && ObjectFrom(c.host, d).Some? &&
      "serial" in ObjectFrom(c.host, d).value && r.serial == ObjectFrom(c.host, d).value["serial"]
    ensures ObjectFrom(c.host, d).Some? && "model" in ObjectFrom(c.host, d).value ==>
      r.model == ObjectFrom(c.host, d).value["model"]
    ensures ObjectFrom(c.host, d).Some? && "swVersion" in ObjectFrom(c.host, d).value ==>
      r.swVersion == Some(Render(str, ObjectFrom(c.host, d).value["swVersion"]))
    ensures ObjectFrom(c.host, d).Some? && "model" !in ObjectFrom(c.host, d).value ==> r.model == c.model
    ensures ObjectFrom(c.host, d).Some? && "swVersion" !in ObjectFrom(c.host, d).value ==> r.swVersion == c.swVersion
  {
    match ObjectFrom(c.host, d)
    case None => c
    case Some(p) =>
      c.(serial := if "serial" in p && c.serial == JNull then p["serial"] else c.serial,
         model := if "model" in p then p["model"] else c.model,
         swVersion := if "swVersion" in p then Some(Render(str, p["swVersion"])) else c.swVersion,
         data := Snapshot.Merge(c.data, p))
  }

  /** The state after the datagrams `ds` have been handled in order. Packet
      handling never changes the host, the identifier or the transport. */
  function Run(c: Coordinator, ds: seq<Datagram>, str: JsonValue -> string): (r: Coordinator)
    ensures r.host == c.host && r.identifier == c.identifier && r.listening == c.listening
  {
    if |ds| == 0 then c else Receive(Run(c, ds[..|ds| - 1], str), ds[|ds| - 1], str)
  }

  /** The outcome of `async_start`. */
  datatype StartResult = Started(running: Coordinator) | StartFailed(error: Exception)

  /** The ports a coordinator's open transport holds. */
  function Ports(c: Coordinator): set<nat> {
    if c.listening then {DefaultPort} else {}
  }

  /** `async_start`: bind the default port on `s`; on success keep the
      transport, which then holds that port. */
  function Start(c: Coordinator, s: Sockets): (r: StartResult)
    ensures r.Started? <==> DefaultPort !in s.held && s.fault.None?
    ensures r.Started? ==> r.running == c.(listening := true) && Ports(r.running) == {DefaultPort}
    ensures DefaultPort in s.held ==> r == StartFailed(OSError)
    ensures DefaultPort !in s.held && s.fault.Some? ==> r == StartFailed(s.fault.value)
  {
    match BindPort(DefaultPort, s)
    case Bound => Started(c.(listening := true))
    case BindFailed(e) => StartFailed(e)
  }

  /** The state after `async_stop` and whether it closed a transport. */
  datatype StopResult = StopResult(stopped: Coordinator, closed: bool)

  /** `async_stop`: close the transport if there is one and forget it. */
  function Stop(c: Coordinator): (r: StopResult)
    ensures !r.stopped.listening
    ensures r.closed <==> c.listening
    ensures r.stopped == c.(listening := false) && Ports(r.stopped) == {}
  {
    if c.listening then StopResult(c.(listening := false), true) else StopResult(c, false)
  }

  /** Handling the same packet twice leaves the state handling it once gives. */
  lemma ReceiveIdempotent(c: Coordinator, d: Datagram, str: JsonValue -> string)
    ensures Receive(Receive(c, d, str), d, str) == Receive(c, d, str)
  {
    match ObjectFrom(c.host, d)
    case None =>
    case Some(p) =>
      Snapshot.MergeIdempotent(c.data, p);
  }

  /** A coordinator built from `host` and a seeded serial starts with an empty
      snapshot and keeps `serial or host` as its identifier whatever arrives. */
  lemma IdentifierFixedAtConstruction(host: string, seed: JsonValue, ds: seq<Datagram>, str: JsonValue -> string)
    ensures Create(host, seed).data == map[]
    ensures Create(host, seed).serial == seed
    ensures Run(Create(host, seed), ds, str).identifier == (if Truthy(seed) then seed else JStr(host))
  {
  }

  /** The snapshot after a run is the merge of the accepted payloads. */
  lemma {:induction false} RunMergesAcceptedPayloads(c: Coordinator, ds: seq<Datagram>, str: JsonValue -> string)
    ensures Run(c, ds, str).data == Snapshot.MergeAll(c.data, ObjectsFrom(c.host, ds))
  {
    if |ds| > 0 {
      var n := |ds| - 1;
      RunMergesAcceptedPayloads(c, ds[..n], str);
      var prev := Run(c, ds[..n], str);
      assert Run(c, ds, str) == Receive(prev, ds[n], str);
      assert ObjectsFrom(c.host, ds) ==
        ObjectsFrom(c.host, ds[..n]) + (if ObjectFrom(c.host, ds[n]).Some? then [ObjectFrom(c.host, ds[n]).value] else []);
    }
  }

  /** Once a serial is held, no sequence of packets changes it. */
  lemma {:induction false} SerialSticky(c: Coordinator, ds: seq<Datagram>, str: JsonValue -> string)
    requires c.serial != JNull
    ensures Run(c, ds, str).serial == c.serial
  {
    if |ds| > 0 {
      SerialSticky(c, ds[..|ds| - 1], str);
    }
  }

  /** Datagram `i` is an accepted packet carrying a non-null serial. */
  ghost predicate CarriesSerial(host: string, ds: seq<Datagram>, i: int) {
    && 0 <= i < |ds|
    && ObjectFrom(host, ds[i]).Some?
    && "serial" in ObjectFrom(host, ds[i]).value
    && ObjectFrom(host, ds[i]).value["serial"] != JNull
  }

  /** Starting without a serial, the serial after a run is the one carried by the
      first accepted packet with a non-null serial, or still None if there is
      none; a packet with `"serial": null` leaves it None. */
  lemma {:induction false} SerialIsFirstNonNull(c: Coordinator, ds: seq<Datagram>, str: JsonValue -> string)
    requires c.serial == JNull
    ensures Run(c, ds, str).serial == JNull <==> forall i :: 0 <= i < |ds| ==> !CarriesSerial(c.host, ds, i)
    ensures forall i :: CarriesSerial(c.host, ds, i) && (forall j :: 0 <= j < i ==> !CarriesSerial(c.host, ds, j)) ==>
      Run(c, ds, str).serial == ObjectFrom(c.host, ds[i]).value["serial"]
  {
    if |ds| > 0 {
      var n := |ds| - 1;
      var q := ds[..n];
      SerialIsFirstNonNull(c, q, str);
      assert forall i :: 0 <= i < n ==> (CarriesSerial(c.host, q, i) <==> CarriesSerial(c.host, ds, i));
      var prev := Run(c, q, str);
      if prev.serial != JNull {
        var i :| 0 <= i < n && CarriesSerial(c.host, q, i);
        assert CarriesSerial(c.host, ds, i);
        assert Run(c, ds, str) == Receive(prev, ds[n], str);
        forall i | CarriesSerial(c.host, ds, i) && (forall j :: 0 <= j < i ==> !CarriesSerial(c.host, ds, j))
          ensures Run(c, ds, str).serial == ObjectFrom(c.host, ds[i]).value["serial"]
        {
          assert i < n;
          assert CarriesSerial(c.host, q, i);
        }
      } else {
        assert Run(c, ds, str) == Receive(prev, ds[n], str);
        assert ObjectFrom(prev.host, ds[n]) == ObjectFrom(c.host, ds[n]);
        if CarriesSerial(c.host, ds, n) {
          assert Run(c, ds, str).serial != JNull;
        } else {
          assert Run(c, ds, str).serial == JNull;
        }
      }
    }
  }

  /** The model after a run is the `model` of the last accepted packet that
      carries one, or the previous model when none does. */
  lemma {:induction false} ModelIsLatest(c: Coordinator, ds: seq<Datagram>, str: JsonValue -> string)
    ensures var latest := Snapshot.MergeAll(map[], ObjectsFrom(c.host, ds));
      Run(c, ds, str).model == if "model" in latest then latest["model"] else c.model
  {
    if |ds| > 0 {
      var n := |ds| - 1;
      ModelIsLatest(c, ds[..n], str);
    }
  }

  /** The software version after a run is the `str()` of the `swVersion` of the
      last accepted packet carrying one, or the previous version when none does. */
  lemma {:induction false} SwVersionIsLatest(c: Coordinator, ds: seq<Datagram>, str: JsonValue -> string)
    ensures var latest := Snapshot.MergeAll(map[], ObjectsFrom(c.host, ds));
      Run(c, ds, str).swVersion == if "swVersion" in latest then Some(Render(str, latest["swVersion"])) else c.swVersion
  {
    if |ds| > 0 {
      SwVersionIsLatest(c, ds[..|ds| - 1], str);
    }
  }

  /** Stopping twice closes at most once; stopping a coordinator that never
      started closes nothing. */
  lemma StopIdempotent(c: Coordinator, host: string, seed: JsonValue)
    ensures Stop(Stop(c).stopped) == StopResult(Stop(c).stopped, false)
    ensures Stop(Create(host, seed)) == StopResult(Create(host, seed), false)
  {
  }
}
