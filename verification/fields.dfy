/** Sensor field descriptors, the key-to-descriptor lookup both sensor
    platforms build from their field table, and the value a sensor reads from
    the coordinator's snapshot. Units and classes are passed through, never
    interpreted. */
module Fields {
  import opened Json

  datatype Unit = KiloWatt | Volt | Ampere | KiloWattHour | CubicMeter | DecibelMilliwatt
  datatype DeviceClass = Power | Voltage | Current | Energy | Gas | SignalStrength
  datatype StateClass = Measurement | TotalIncreasing

  /** `P1SensorFieldDescriptor`. */
  datatype FieldDescriptor = FieldDescriptor(
    key: string,
    jsonKey: string,
    translationKey: string,
    unit: Option<Unit>,
    deviceClass: Option<DeviceClass>,
    stateClass: Option<StateClass>,
    realtime: bool)

  /** `SensorEntityDescription` as the sensor platforms build it. */
  datatype SensorDescription = SensorDescription(
    key: string,
    translationKey: string,
    unit: Option<Unit>,
    deviceClass: Option<DeviceClass>,
    stateClass: Option<StateClass>)

  function Describe(f: FieldDescriptor): SensorDescription {
    SensorDescription(f.key, f.translationKey, f.unit, f.deviceClass, f.stateClass)
  }

  /** `SENSOR_DESCRIPTIONS`: one description per field, in table order. */
  function Descriptions(fields: seq<FieldDescriptor>): (r: seq<SensorDescription>)
    ensures |r| == |fields|
    ensures forall i :: 0 <= i < |r| ==> r[i] == Describe(fields[i])
  {
    seq(|fields|, i requires 0 <= i < |fields| => Describe(fields[i]))
  }

  predicate DistinctKeys(fields: seq<FieldDescriptor>) {
    forall i, j :: 0 <= i < j < |fields| ==> fields[i].key != fields[j].key
  }

  /** `_FIELD_BY_KEY = {f.key: f for f in SENSOR_FIELDS}`: a later field wins
      over an earlier one with the same key. Every key of the table is present,
      only those are, and each maps to a field carrying that key. */
  function FieldByKey(fields: seq<FieldDescriptor>): (m: map<string, FieldDescriptor>)
    ensures forall i :: 0 <= i < |fields| ==> fields[i].key in m
    ensures forall k :: k in m ==> m[k].key == k && m[k] in fields
  {
    if |fields| == 0 then map[]
    else
      var n := |fields| - 1;
      var m := FieldByKey(fields[..n]);
      assert forall i :: 0 <= i < n ==> fields[..n][i] == fields[i];
      m[fields[n].key := fields[n]]
  }

  /** With distinct keys the lookup loses no field: each key resolves to the
      one field carrying it. */
  lemma {:induction false} FieldByKeyResolves(fields: seq<FieldDescriptor>)
    requires DistinctKeys(fields)
    ensures forall i :: 0 <= i < |fields| ==> FieldByKey(fields)[fields[i].key] == fields[i]
  {
    if |fields| > 0 {
      var n := |fields| - 1;
      var q := fields[..n];
      var last := fields[n];
      assert DistinctKeys(q);
      FieldByKeyResolves(q);
      var m := FieldByKey(q);
      assert FieldByKey(fields) == m[last.key := last];
      assert last.key !in m;
      forall i | 0 <= i < n
        ensures FieldByKey(fields)[fields[i].key] == fields[i]
      {
        assert q[i] == fields[i];
        assert fields[i].key != last.key;
      }
    }
  }

  /** With distinct keys the lookup has exactly as many entries as the table. */
  lemma {:induction false} FieldByKeySize(fields: seq<FieldDescriptor>)
    requires DistinctKeys(fields)
    ensures |FieldByKey(fields)| == |fields|
  {
    if |fields| > 0 {
      var n := |fields| - 1;
      var q := fields[..n];
      var last := fields[n];
      assert DistinctKeys(q);
      FieldByKeySize(q);
      var m := FieldByKey(q);
      assert last.key !in m;
      assert m[last.key := last].Keys == m.Keys + {last.key};
    }
  }

  /** `native_value`: None while the snapshot is empty, otherwise
      `data.get(json_key)`. */
  function NativeValue(data: Object, f: FieldDescriptor): (v: JsonValue)
    ensures f.jsonKey in data ==> v == data[f.jsonKey]
    ensures f.jsonKey !in data ==> v == JNull
  {
    if |data| == 0 then JNull else Get(data, f.jsonKey)
  }
}
