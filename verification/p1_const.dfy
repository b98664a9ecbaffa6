/** The constants of the P1 Meter integration: its domain and the field table
    that drives its sensors. Its `DEFAULT_PORT` is `Wire.DefaultPort`. */
module P1Const {
  import opened Json
  import opened Fields

  const Domain: string := "p1_meter"

  /** A field whose key, JSON key and translation key are all `name`. */
  function Field(name: string, unit: Unit, deviceClass: DeviceClass, stateClass: StateClass, realtime: bool): FieldDescriptor {
    FieldDescriptor(name, name, name, Some(unit), Some(deviceClass), Some(stateClass), realtime)
  }

  /** `SENSOR_FIELDS`. Ten fields with distinct keys, each read from the JSON
      key of the same name; power, voltage and current are real-time
      measurements, the four tariff registers and gas are increasing totals,
      and the signal strength is a measurement that is not real-time. */
  function SensorFields(): (r: seq<FieldDescriptor>)
    ensures |r| == 10
    ensures DistinctKeys(r)
    ensures forall i :: 0 <= i < |r| ==> r[i].key == r[i].jsonKey == r[i].translationKey
    ensures forall i :: 0 <= i < |r| ==>
      (r[i].realtime <==> r[i].deviceClass in {Some(Power), Some(Voltage), Some(Current)})
    ensures forall i :: 0 <= i < |r| ==>
      (r[i].stateClass == Some(TotalIncreasing) <==> r[i].deviceClass in {Some(Energy), Some(Gas)})
    ensures forall i :: 0 <= i < |r| ==>
      (r[i].stateClass == Some(Measurement) <==> !(r[i].deviceClass in {Some(Energy), Some(Gas)}))
    ensures forall i :: 0 <= i < |r| ==> r[i].unit.Some? && r[i].deviceClass.Some? && r[i].stateClass.Some?
  {
    KeysDistinct();
    Listed()
  }

  /** The ten descriptors in the order the table lists them. */
  function Listed(): seq<FieldDescriptor> {
    [ Field("power_delivered", KiloWatt, Power, Measurement, true),
      Field("power_returned", KiloWatt, Power, Measurement, true),
      Field("voltage_l1", Volt, Voltage, Measurement, true),
      Field("current_l1", Ampere, Current, Measurement, true),
      Field("energy_delivered_tariff1", KiloWattHour, Energy, TotalIncreasing, false),
      Field("energy_delivered_tariff2", KiloWattHour, Energy, TotalIncreasing, false),
      Field("energy_returned_tariff1", KiloWattHour, Energy, TotalIncreasing, false),
      Field("energy_returned_tariff2", KiloWattHour, Energy, TotalIncreasing, false),
      Field("gas_delivered", CubicMeter, Gas, TotalIncreasing, false),
      Field("wifi_rssi", DecibelMilliwatt, SignalStrength, Measurement, false) ]
  }

  /** The keys of the listed descriptors are pairwise distinct: the four
      real-time keys, the four tariff registers, gas and the signal strength
      differ within their group and start with different letters across
      groups. */
  lemma KeysDistinct()
    ensures DistinctKeys(Listed())
  {
    var r := Listed();
    forall i, j | 0 <= i < j < |r| ensures r[i].key != r[j].key {
      if j < 4 {
      } else if i < 4 {
        assert r[i].key[0] != 'e' && r[i].key[0] != 'g' && r[i].key[0] != 'w';
      } else if j < 8 {
      } else {
        assert r[j].key[0] == 'g' || r[j].key[0] == 'w';
      }
    }
  }
}
