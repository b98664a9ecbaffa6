/** The EARN-E sensor platform: one sensor per field descriptor, keyed by the
    coordinator's fixed identifier. The EARN-E field table is not part of this
    model, so the platform is stated for any table. */
module EarnSensor {
  import opened Json
  import opened Wire
  import opened Fields
  import Snapshot
  import C = EarnCoordinator

  /** One `EarnEP1Sensor`: its unique id, description and resolved field. */
  datatype Sensor = Sensor(uniqueId: string, description: SensorDescription, field: FieldDescriptor)

  /** `f"{coordinator.identifier}_{description.key}"`. */
  function UniqueId(str: JsonValue -> string, identifier: JsonValue, key: string): string {
    Render(str, identifier) + "_" + key
  }

  /** The platform's `async_setup_entry`: a sensor for every description, each
      resolving its field through `_FIELD_BY_KEY`. */
  function Sensors(c: C.Coordinator, fields: seq<FieldDescriptor>, str: JsonValue -> string): (r: seq<Sensor>)
    ensures |r| == |fields|
    ensures forall i :: 0 <= i < |r| ==>
      && r[i].description == Describe(fields[i])
      && r[i].field.key == fields[i].key
      && r[i].uniqueId == UniqueId(str, c.identifier, fields[i].key)
  {
    var descriptions := Descriptions(fields);
    var byKey := FieldByKey(fields);
    seq(|descriptions|, i requires 0 <= i < |descriptions| =>
      Sensor(UniqueId(str, c.identifier, descriptions[i].key), descriptions[i], byKey[descriptions[i].key]))
  }

  /** `available`: the base entity is available, the snapshot is non-empty and
      holds the field's JSON key. */
  function Available(baseAvailable: bool, data: Object, f: FieldDescriptor): (available: bool)
    ensures available <==> baseAvailable && f.jsonKey in data
  {
    baseAvailable && |data| > 0 && f.jsonKey in data
  }

  /** A sensor is available exactly when the base entity is and its key has been
      observed, and then shows the observed value; a sensor whose key is missing
      shows None. */
  lemma AvailableShowsValue(baseAvailable: bool, data: Object, f: FieldDescriptor)
    ensures Available(baseAvailable, data, f) <==> baseAvailable && f.jsonKey in data
    ensures f.jsonKey in data ==> NativeValue(data, f) == data[f.jsonKey]
    ensures f.jsonKey !in data ==> NativeValue(data, f) == JNull
  {
    if f.jsonKey in data {
      assert f.jsonKey in data.Keys;
      assert |data| > 0;
    }
  }

  /** After the coordinator has handled `ds`, a sensor is available exactly
      when the base entity is and its key was already in the snapshot or came
      in some accepted packet, and it then shows the value of the last packet
      that carried the key. A freshly set up coordinator starts empty, so its
      sensors stay unavailable until a packet with their key arrives. */
  lemma AvailableAfterRun(c: C.Coordinator, ds: seq<Datagram>, str: JsonValue -> string, baseAvailable: bool, f: FieldDescriptor)
    ensures var ps := ObjectsFrom(c.host, ds);
      Available(baseAvailable, C.Run(c, ds, str).data, f) <==>
        baseAvailable && (f.jsonKey in c.data || exists i :: 0 <= i < |ps| && f.jsonKey in ps[i])
    ensures var ps := ObjectsFrom(c.host, ds);
      forall i :: Snapshot.LastCarrier(ps, i, f.jsonKey) ==>
        NativeValue(C.Run(c, ds, str).data, f) == ps[i][f.jsonKey]
  {
    var ps := ObjectsFrom(c.host, ds);
    C.RunMergesAcceptedPayloads(c, ds, str);
    Snapshot.MergeAllKeys(c.data, ps, f.jsonKey);
    forall i | Snapshot.LastCarrier(ps, i, f.jsonKey)
      ensures NativeValue(C.Run(c, ds, str).data, f) == ps[i][f.jsonKey]
    {
      Snapshot.MergeAllLastWins(c.data, ps, i, f.jsonKey);
    }
  }

  /** With distinct keys every sensor resolves to its own descriptor and no two
      sensors share a unique id. */
  lemma SensorsAreDistinct(c: C.Coordinator, fields: seq<FieldDescriptor>, str: JsonValue -> string)
    requires DistinctKeys(fields)
    ensures var r := Sensors(c, fields, str);
      && (forall i :: 0 <= i < |r| ==> r[i].field == fields[i])
      && (forall i, j :: 0 <= i < j < |r| ==> r[i].uniqueId != r[j].uniqueId)
  {
    FieldByKeyResolves(fields);
    var r := Sensors(c, fields, str);
    var prefix := Render(str, c.identifier) + "_";
    forall i, j | 0 <= i < j < |r| ensures r[i].uniqueId != r[j].uniqueId {
      assert r[i].uniqueId == prefix + fields[i].key;
      assert r[j].uniqueId == prefix + fields[j].key;
      assert (prefix + fields[i].key)[|prefix|..] == fields[i].key;
      assert (prefix + fields[j].key)[|prefix|..] == fields[j].key;
    }
  }

  /** Sensor unique ids never change while packets arrive, whatever serial the
      packets carry. */
  lemma UniqueIdsStable(c: C.Coordinator, ds: seq<Datagram>, fields: seq<FieldDescriptor>, str: JsonValue -> string)
    ensures Sensors(C.Run(c, ds, str), fields, str) == Sensors(c, fields, str)
  {
  }
}
