/** The discovery/validation listener of the EARN-E config flow: a one-shot UDP
    session that resolves on the first datagram that passes the optional source
    filter, decodes to a JSON object and looks like meter telemetry. */
module Listener {
  import opened Json
  import opened Wire

  /** What a listen attempt learns about a device. */
  datatype DeviceInfo = DeviceInfo(host: string, serial: JsonValue)

  /** `if self.host_filter and source_ip != self.host_filter: return`, negated:
      an absent or empty filter lets every source through. */
  predicate SourceAllowed(filter: Option<string>, source: string) {
    filter.None? || filter.value == "" || source == filter.value
  }

  /** The heuristic that tells meter telemetry from other broadcast noise. */
  predicate LooksLikeMeter(p: Object) {
    "power_delivered" in p || "serial" in p
  }

  /** What one datagram resolves a still-pending listener to, if anything. */
  function Candidate(filter: Option<string>, d: Datagram): (r: Option<DeviceInfo>)
    ensures r.Some? <==> SourceAllowed(filter, d.source) && MeterLike(d)
    ensures r.Some? ==> r.value.host == d.source && r.value.serial == Get(d.payload.value.fields, "serial")
  {
    if !SourceAllowed(filter, d.source) then None
    else match d.payload
      case Some(JObj(p)) =>
        if LooksLikeMeter(p) then Some(DeviceInfo(d.source, Get(p, "serial"))) else None
      case _ => None
  }

  /** `_ListenProtocol.datagram_received` on the future's state `found`: a
      resolved future ignores every later datagram. */
  function OnDatagram(found: Option<DeviceInfo>, filter: Option<string>, d: Datagram): (r: Option<DeviceInfo>)
    ensures found.Some? ==> r == found
    ensures found.None? ==> r == Candidate(filter, d)
  {
    if found.Some? then found else Candidate(filter, d)
  }

  /** The future's state after the datagrams `ds` have been delivered in order.
      Whatever it resolves to is a device at a source the filter lets through. */
  function Resolve(filter: Option<string>, ds: seq<Datagram>): (r: Option<DeviceInfo>)
    ensures r.Some? ==> SourceAllowed(filter, r.value.host)
  {
    if |ds| == 0 then None else OnDatagram(Resolve(filter, ds[..|ds| - 1]), filter, ds[|ds| - 1])
  }

  /** Datagram `i` is the first of `ds` the listener accepts. */
  ghost predicate FirstAccepted(filter: Option<string>, ds: seq<Datagram>, i: int) {
    && 0 <= i < |ds|
    && Candidate(filter, ds[i]).Some?
    && forall j :: 0 <= j < i ==> Candidate(filter, ds[j]).None?
  }

  /** The listener resolves iff some datagram is accepted, and then to what the
      first accepted datagram yields. */
  lemma {:induction false} ResolvesOnFirstAccepted(filter: Option<string>, ds: seq<Datagram>)
    ensures Resolve(filter, ds).Some? <==> exists i :: 0 <= i < |ds| && Candidate(filter, ds[i]).Some?
    ensures forall i :: FirstAccepted(filter, ds, i) ==> Resolve(filter, ds) == Candidate(filter, ds[i])
  {
    if |ds| > 0 {
      var n := |ds| - 1;
      var q := ds[..n];
      ResolvesOnFirstAccepted(filter, q);
      assert forall i :: 0 <= i < n ==> q[i] == ds[i];
      if Resolve(filter, q).Some? {
        var k :| 0 <= k < n && Candidate(filter, q[k]).Some?;
        assert Candidate(filter, ds[k]).Some?;
        forall i | FirstAccepted(filter, ds, i)
          ensures Resolve(filter, ds) == Candidate(filter, ds[i])
        {
          assert i <= k;
          assert FirstAccepted(filter, q, i);
        }
      } else {
        assert forall i :: 0 <= i < n ==> Candidate(filter, ds[i]).None?;
      }
    }
  }

  /** With a non-empty filter only the filtered source can be found, and the
      serial found is the `serial` of a meter-like object from it (None when the
      packet was accepted for `power_delivered` alone). */
  lemma FoundComesFromFilteredSource(filter: Option<string>, ds: seq<Datagram>)
    requires Resolve(filter, ds).Some?
    ensures filter.Some? && filter.value != "" ==> Resolve(filter, ds).value.host == filter.value
    ensures exists i :: (0 <= i < |ds| && ds[i].source == Resolve(filter, ds).value.host &&
      ds[i].payload.Some? && ds[i].payload.value.JObj? && LooksLikeMeter(ds[i].payload.value.fields) &&
      Resolve(filter, ds).value.serial == Get(ds[i].payload.value.fields, "serial"))
  {
    ResolvesOnFirstAccepted(filter, ds);
    var i := FirstIndex(filter, ds);
    assert FirstAccepted(filter, ds, i);
  }

  /** The payload of `d` is a meter-like JSON object. */
  predicate MeterLike(d: Datagram) {
    d.payload.Some? && d.payload.value.JObj? && LooksLikeMeter(d.payload.value.fields)
  }

  /** Without a filter, or with an empty one, the source does not matter: the
      listener resolves iff some datagram carries a meter-like object. */
  lemma UnfilteredAcceptsAnySource(filter: Option<string>, ds: seq<Datagram>)
    requires filter.None? || filter.value == ""
    ensures Resolve(filter, ds).Some? <==> exists i :: 0 <= i < |ds| && MeterLike(ds[i])
  {
    ResolvesOnFirstAccepted(filter, ds);
    assert forall i :: 0 <= i < |ds| ==> (Candidate(filter, ds[i]).Some? <==> MeterLike(ds[i]));
  }

  /** The index of the first accepted datagram. */
  function FirstIndex(filter: Option<string>, ds: seq<Datagram>): (i: nat)
    requires exists k :: 0 <= k < |ds| && Candidate(filter, ds[k]).Some?
    ensures FirstAccepted(filter, ds, i)
  {
    if Candidate(filter, ds[0]).Some? then 0
    else
      assert exists k :: 0 <= k < |ds[1..]| && Candidate(filter, ds[1..][k]).Some? by {
        var k :| 0 <= k < |ds| && Candidate(filter, ds[k]).Some?;
        assert ds[1..][k - 1] == ds[k];
      }
      var j := FirstIndex(filter, ds[1..]);
      assert forall m :: 0 < m <= j ==> ds[m] == ds[1..][m - 1];
      j + 1
  }

  /** The datagrams delivered before `deadline` milliseconds, in arrival order. */
  function Delivered(arrivals: seq<Arrival>, deadline: nat): (ds: seq<Datagram>)
    ensures forall d :: d in ds <==> exists i :: 0 <= i < |arrivals| && arrivals[i].at < deadline && arrivals[i].datagram == d
  {
    if |arrivals| == 0 then []
    else
      var last := arrivals[|arrivals| - 1];
      var earlier := Delivered(arrivals[..|arrivals| - 1], deadline);
      assert forall i :: 0 <= i < |arrivals| - 1 ==> arrivals[..|arrivals| - 1][i] == arrivals[i];
      if last.at < deadline then earlier + [last.datagram] else earlier
  }

  /** The arrivals are listed in the order they reached the socket. */
  predicate InArrivalOrder(arrivals: seq<Arrival>) {
    forall i, j :: 0 <= i < j < |arrivals| ==> arrivals[i].at <= arrivals[j].at
  }

  /** Arrival `i` came before `deadline` and the listener accepts it. */
  ghost predicate AcceptedArrival(filter: Option<string>, arrivals: seq<Arrival>, deadline: nat, i: int) {
    && 0 <= i < |arrivals|
    && arrivals[i].at < deadline
    && Candidate(filter, arrivals[i].datagram).Some?
  }

  /** Arrival `i` is the first accepted arrival before `deadline`. */
  ghost predicate FirstArrival(filter: Option<string>, arrivals: seq<Arrival>, deadline: nat, i: int) {
    && AcceptedArrival(filter, arrivals, deadline, i)
    && forall j :: 0 <= j < i ==> !AcceptedArrival(filter, arrivals, deadline, j)
  }

  /** Delivering one more arrival feeds its datagram to the listener when it
      came before the deadline and changes nothing otherwise. */
  lemma ResolveDeliveredLast(filter: Option<string>, arrivals: seq<Arrival>, deadline: nat)
    requires |arrivals| > 0
    ensures var n := |arrivals| - 1;
      var prev := Resolve(filter, Delivered(arrivals[..n], deadline));
      Resolve(filter, Delivered(arrivals, deadline)) ==
        if arrivals[n].at < deadline then OnDatagram(prev, filter, arrivals[n].datagram) else prev
  {
    var n := |arrivals| - 1;
    var earlier := Delivered(arrivals[..n], deadline);
    if arrivals[n].at < deadline {
      assert Delivered(arrivals, deadline) == earlier + [arrivals[n].datagram];
      assert (earlier + [arrivals[n].datagram])[..|earlier|] == earlier;
    } else {
      assert Delivered(arrivals, deadline) == earlier;
    }
  }

  /** Delivering the arrivals before a deadline, in arrival order, resolves the
      listener iff some arrival before the deadline is accepted, and then to
      what the first such arrival yields. */
  lemma {:induction false} ResolvesOnFirstArrival(filter: Option<string>, arrivals: seq<Arrival>, deadline: nat)
    ensures Resolve(filter, Delivered(arrivals, deadline)).Some? <==>
      exists i :: AcceptedArrival(filter, arrivals, deadline, i)
    ensures Resolve(filter, Delivered(arrivals, deadline)).Some? ==>
      exists i :: FirstArrival(filter, arrivals, deadline, i) &&
        Resolve(filter, Delivered(arrivals, deadline)) == Candidate(filter, arrivals[i].datagram)
  {
    if |arrivals| > 0 {
      var n := |arrivals| - 1;
      var q := arrivals[..n];
      ResolvesOnFirstArrival(filter, q, deadline);
      ResolveDeliveredLast(filter, arrivals, deadline);
      assert forall i :: 0 <= i < n ==> q[i] == arrivals[i];
      assert forall i :: 0 <= i < n ==>
        (AcceptedArrival(filter, q, deadline, i) <==> AcceptedArrival(filter, arrivals, deadline, i));
      var prev := Resolve(filter, Delivered(q, deadline));
      if prev.Some? {
        var i :| FirstArrival(filter, q, deadline, i) && prev == Candidate(filter, q[i].datagram);
        assert FirstArrival(filter, arrivals, deadline, i);
      } else if AcceptedArrival(filter, arrivals, deadline, n) {
        assert FirstArrival(filter, arrivals, deadline, n);
      } else {
        assert forall i :: 0 <= i < |arrivals| ==> !AcceptedArrival(filter, arrivals, deadline, i);
      }
    }
  }

  /** There is at most one first accepted arrival. */
  lemma FirstArrivalUnique(filter: Option<string>, arrivals: seq<Arrival>, deadline: nat, i: int, j: int)
    requires FirstArrival(filter, arrivals, deadline, i) && FirstArrival(filter, arrivals, deadline, j)
    ensures i == j
  {
  }

  /** What `_async_listen_for_device` returns or raises. */
  datatype ListenOutcome = Found(info: DeviceInfo) | TimedOut | Failed(error: Exception)

  /** The outcome together with the number of `transport.close()` calls made. */
  datatype ListenRun = ListenRun(outcome: ListenOutcome, closes: nat)

  /** `_async_listen_for_device(host_filter, timeout)`: bind the default port
      on `s` (its error propagates), wait up to `timeout` seconds for the
      future, and close the transport on every exit path after a successful
      bind. */
  function ListenForDevice(s: Sockets, filter: Option<string>, timeout: nat, arrivals: seq<Arrival>): (r: ListenRun)
    ensures r.closes == if DefaultPort !in s.held && s.fault.None? then 1 else 0
    ensures r.outcome.Failed? <==> DefaultPort in s.held || s.fault.Some?
    ensures DefaultPort in s.held ==> r.outcome == Failed(OSError)
    ensures DefaultPort !in s.held && s.fault.Some? ==> r.outcome == Failed(s.fault.value)
    ensures r.outcome.TimedOut? <==> (DefaultPort !in s.held && s.fault.None? &&
      forall i :: 0 <= i < |arrivals| && arrivals[i].at < timeout * 1000 ==>
        Candidate(filter, arrivals[i].datagram).None?)
    ensures r.outcome.Found? ==> Resolve(filter, Delivered(arrivals, timeout * 1000)) == Some(r.outcome.info)
    ensures forall i :: DefaultPort !in s.held && s.fault.None? && FirstArrival(filter, arrivals, timeout * 1000, i) ==>
      r.outcome == Found(Candidate(filter, arrivals[i].datagram).value)
  {
    match BindPort(DefaultPort, s)
    case BindFailed(e) => ListenRun(Failed(e), 0)
    case Bound =>
      var ds := Delivered(arrivals, timeout * 1000);
      ResolvesOnFirstAccepted(filter, ds);
      ResolvesOnFirstArrival(filter, arrivals, timeout * 1000);
      assert forall i :: FirstArrival(filter, arrivals, timeout * 1000, i) ==>
        Resolve(filter, ds) == Candidate(filter, arrivals[i].datagram) by {
        forall i | FirstArrival(filter, arrivals, timeout * 1000, i)
          ensures Resolve(filter, ds) == Candidate(filter, arrivals[i].datagram)
        {
          var k :| FirstArrival(filter, arrivals, timeout * 1000, k) &&
            Resolve(filter, ds) == Candidate(filter, arrivals[k].datagram);
          FirstArrivalUnique(filter, arrivals, timeout * 1000, i, k);
        }
      }
      var found := Resolve(filter, ds);
      if found.Some? then
        assert exists i :: (0 <= i < |arrivals| && arrivals[i].at < timeout * 1000 &&
          Candidate(filter, arrivals[i].datagram).Some?) by {
          var k :| 0 <= k < |ds| && Candidate(filter, ds[k]).Some?;
          assert ds[k] in ds;
        }
        ListenRun(Found(found.value), 1)
      else
        assert forall i :: 0 <= i < |arrivals| && arrivals[i].at < timeout * 1000 ==>
          Candidate(filter, arrivals[i].datagram).None? by {
          forall i | 0 <= i < |arrivals| && arrivals[i].at < timeout * 1000
            ensures Candidate(filter, arrivals[i].datagram).None?
          {
            assert arrivals[i].datagram in ds;
          }
        }
        ListenRun(TimedOut, 1)
  }
}
