/** The P1 Meter sensor platform: one sensor per field of the table, keyed by
    host, with a device identity that follows the coordinator's live serial. */
module P1Sensor {
  import opened Json
  import opened Wire
  import opened Fields
  import P1Const
  import Snapshot
  import C = P1Coordinator

  /** One `P1MeterSensor`: its unique id, description and resolved field. */
  datatype Sensor = Sensor(uniqueId: string, description: SensorDescription, field: FieldDescriptor)

  /** `f"{coordinator.host}_{description.key}"`. */
  function UniqueId(host: string, key: string): string {
    host + "_" + key
  }

  /** The platform's `async_setup_entry` over the integration's field table. */
  function Sensors(c: C.Coordinator): (r: seq<Sensor>)
    ensures |r| == |P1Const.SensorFields()|
    ensures forall i :: 0 <= i < |r| ==>
      && r[i].description == Describe(P1Const.SensorFields()[i])
      && r[i].field == P1Const.SensorFields()[i]
      && r[i].uniqueId == UniqueId(c.host, P1Const.SensorFields()[i].key)
  {
    var fields := P1Const.SensorFields();
    FieldByKeyResolves(fields);
    var descriptions := Descriptions(fields);
    var byKey := FieldByKey(fields);
    seq(|descriptions|, i requires 0 <= i < |descriptions| =>
      Sensor(UniqueId(c.host, descriptions[i].key), descriptions[i], byKey[descriptions[i].key]))
  }

  /** The device-registry entry `device_info` describes. */
  datatype DeviceEntry = DeviceEntry(
    identifier: (string, JsonValue),
    name: string,
    manufacturer: string,
    model: JsonValue,
    swVersion: JsonValue)

  /** `device_info`, read live from the coordinator: identified by
      `serial or host`. */
  function Device(c: C.Coordinator): (d: DeviceEntry)
    ensures d.identifier.0 == P1Const.Domain
    ensures d.identifier.1 == (if Truthy(c.serial) then c.serial else JStr(c.host))
    ensures d.model == c.model && d.swVersion == c.swVersion
  {
    DeviceEntry((P1Const.Domain, Or(c.serial, JStr(c.host))), "P1 Meter", "Dongle Connect", c.model, c.swVersion)
  }

  /** `available`: the snapshot is non-empty and holds the field's JSON key. */
  function Available(data: Object, f: FieldDescriptor): (available: bool)
    ensures available <==> f.jsonKey in data
  {
    |data| > 0 && f.jsonKey in data
  }

  /** A sensor is available exactly when its key has been observed, and then
      shows the observed value; otherwise it shows None. */
  lemma AvailableShowsValue(data: Object, f: FieldDescriptor)
    ensures Available(data, f) <==> f.jsonKey in data
    ensures Available(data, f) ==> NativeValue(data, f) == data[f.jsonKey]
    ensures !Available(data, f) ==> NativeValue(data, f) == JNull
  {
    if f.jsonKey in data {
      assert f.jsonKey in data.Keys;
    }
  }

  /** After the coordinator has handled `ds`, a sensor is available exactly
      when its key was already in the snapshot or came in some accepted
      packet, and it then shows the value of the last packet that carried the
      key. */
  lemma AvailableAfterRun(c: C.Coordinator, ds: seq<Datagram>, f: FieldDescriptor)
    requires C.AllHandled(c.host, ds)
    ensures var ps := ObjectsFrom(c.host, ds);
      Available(C.Run(c, ds).data, f) <==>
        f.jsonKey in c.data || exists i :: 0 <= i < |ps| && f.jsonKey in ps[i]
    ensures var ps := ObjectsFrom(c.host, ds);
      forall i :: Snapshot.LastCarrier(ps, i, f.jsonKey) ==>
        NativeValue(C.Run(c, ds).data, f) == ps[i][f.jsonKey]
  {
    var ps := ObjectsFrom(c.host, ds);
    C.RunMergesAcceptedPayloads(c, ds);
    Snapshot.MergeAllKeys(c.data, ps, f.jsonKey);
    forall i | Snapshot.LastCarrier(ps, i, f.jsonKey)
      ensures NativeValue(C.Run(c, ds).data, f) == ps[i][f.jsonKey]
    {
      Snapshot.MergeAllLastWins(c.data, ps, i, f.jsonKey);
    }
  }

  /** Sensor unique ids depend on the host only, so packets never change them,
      while the device identifier switches to the serial of the latest packet
      that carries a truthy one. */
  lemma IdentityAfterPacket(c: C.Coordinator, d: Datagram)
    requires C.Handled(c.host, d)
    ensures Sensors(C.Receive(c, d)) == Sensors(c)
    ensures (ObjectFrom(c.host, d).Some? && "serial" in ObjectFrom(c.host, d).value &&
             Truthy(ObjectFrom(c.host, d).value["serial"])) ==>
      Device(C.Receive(c, d)).identifier.1 == ObjectFrom(c.host, d).value["serial"]
  {
  }
}
