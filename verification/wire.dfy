/** What the UDP socket layer hands to the integrations. Socket objects are
    not modelled: a datagram arrives already split into its source address and
    the result of `json.loads` on its bytes, and a bind attempt meets the ports
    already held on the host. */
module Wire {
  import opened Json

  /** `DEFAULT_PORT`: the UDP port the coordinators and the discovery listener
      bind on all interfaces. */
  const DefaultPort: nat := 16121

  /** One received datagram: `addr[0]` and `json.loads(data)`, where `None`
      stands for bytes that raised `JSONDecodeError` or `UnicodeDecodeError`. */
  datatype Datagram = Datagram(source: string, payload: Option<JsonValue>)

  /** A datagram together with the millisecond at which it arrived, counted from
      the moment the listener was bound. */
  datatype Arrival = Arrival(at: nat, datagram: Datagram)

  /** The exception classes the integrations distinguish. */
  datatype Exception = OSError | OtherError

  /** The outcome of `create_datagram_endpoint`. */
  datatype BindResult = Bound | BindFailed(error: Exception)

  /** What a bind meets on this host: the UDP ports other endpoints hold, and
      an error the operating system raises even for a free port (`None` when
      it raises none). */
  datatype Sockets = Sockets(held: set<nat>, fault: Option<Exception>)

  /** The same host after an endpoint has taken `ports` as well. */
  function Holding(s: Sockets, ports: set<nat>): Sockets {
    s.(held := s.held + ports)
  }

  /** Binding `port`: a port another endpoint holds fails with `OSError`
      (address in use); a free port fails with the operating system's error
      if it raises one, and is bound otherwise. */
  function BindPort(port: nat, s: Sockets): BindResult {
    if port in s.held then BindFailed(OSError)
    else if s.fault.Some? then BindFailed(s.fault.value)
    else Bound
  }

  /** The JSON object a datagram from `host` carries, if it decodes to one. */
  function ObjectFrom(host: string, d: Datagram): Option<Object> {
    if d.source == host && d.payload.Some? && d.payload.value.JObj?
    then Some(d.payload.value.fields)
    else None
  }

  /** The objects, in arrival order, that `ObjectFrom` yields for `ds`. */
  function ObjectsFrom(host: string, ds: seq<Datagram>): seq<Object>
  {
    if |ds| == 0 then []
    else
      var last := ds[|ds| - 1];
      var earlier := ObjectsFrom(host, ds[..|ds| - 1]);
      match ObjectFrom(host, last)
      case Some(p) => earlier + [p]
      case None => earlier
  }
}
