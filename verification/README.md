# EARN-E and Dongle Connect P1 meter integrations, modelled in Dafny

This project models two Home Assistant custom integrations for P1 smart-meter
dongles. Each dongle pushes JSON telemetry as UDP datagrams to port 16121.

- **earn_e_p1** (EARN-E):
  - a coordinator that merges packets from the configured host into a snapshot and takes the device serial once;
  - a config flow that discovers a device by listening on the port, validates a manually entered host by listening for it, and reconfigures an entry with an explicit duplicate check;
  - entry setup that maps a busy port to "not ready";
  - a sensor platform keyed by the coordinator's fixed identifier.
- **p1_meter** (Dongle Connect):
  - a coordinator that overwrites the serial on every packet that carries one;
  - a config flow keyed by the entered host, with no listening;
  - plain entry setup;
  - a constant table of ten sensor fields;
  - a sensor platform whose device identity follows the live serial.

Values follow Python semantics (module `Json`):
- `None` is JSON `null`;
- `x or y` uses Python truthiness;
- `dict.get` returns `None` for a missing key;
- `str()` on a non-string is an uninterpreted function parameter.

Sockets are abstracted into `Wire`. A datagram arrives as its source address plus the result of `json.loads`. A bind meets a `Sockets` value: the ports other endpoints on the host already hold, plus an error the operating system may raise for a free port. `BindPort(port, s)` fails with `OSError` when `port` is held. Both coordinators and the discovery listener bind `Wire.DefaultPort` (16121, `DEFAULT_PORT` in custom_components/p1_meter/const.py:21). A running coordinator holds that port (`Ports`), so contention between them follows from the shared port.

Both coordinators process packet streams with the same fold: take the state after all but the last packet, then apply the last one. Lemmas relate each fold to an independent, index-based description:
- which payload wins a key (`Snapshot.LatestObservations`);
- which packet gives the serial (the first packet carrying one for EARN-E, the latest for P1);
- which datagram the listener resolves on (the first accepted one).

Modules, in dependency order:
- `Json`, `Wire`;
- `Snapshot` (the `dict.update` snapshot);
- `EarnCoordinator`, `P1Coordinator`;
- `Listener` (the EARN-E listen session);
- `Flow` (config entries, flow results, the unique-id rule);
- `EarnConfigFlow`, `P1ConfigFlow`;
- `Lifecycle`, `EarnSetup`, `P1Setup`;
- `Fields`, `P1Const`, `EarnSensor`, `P1Sensor`;
- `Scenarios` (properties spanning several components).

Two behaviours of the code are easy to overlook:
- **Busy port.** The EARN-E flows have no distinct port-busy outcome; a bind `OSError` is handled differently at each step:
  - during auto-discovery in the user step, it counts as "nothing found" and the manual form is shown;
  - manual validation reports it as `cannot_connect`;
  - reconfiguration skips validation and keeps the stored serial.
- **Serial overwrite.** Only the EARN-E coordinator keeps a serial once it is known. The P1 coordinator overwrites it with every packet that carries a `serial` key, even a `null` one.

## Model

| member | source | states |
|---|---|---|
| Flow.UniqueIdFor | custom_components/earn_e_p1/config_flow.py:178 | `serial or host` is either the serial or the host string; it is the serial exactly when the serial is truthy (or already equals the host string); it is truthy iff the serial is truthy or the host is non-empty |
| Flow.UpdatePreservesDistinctUniqueIds | custom_components/earn_e_p1/config_flow.py:264-273 | giving one entry a unique id that no other entry holds keeps all unique ids pairwise distinct |
| Flow.Added | custom_components/earn_e_p1/config_flow.py:182-185 | storing a created entry appends it under the new entry id and unique id, keeps the earlier entries as they were, and makes its unique id configured; other results store nothing |
| Flow.CreatePreservesDistinctUniqueIds | custom_components/earn_e_p1/config_flow.py:178-185 | adding an entry under a unique id no existing entry holds keeps unique ids pairwise distinct |
| Snapshot.Merge | custom_components/earn_e_p1/coordinator.py:51-53 | the merged snapshot has exactly the old keys plus the payload keys; payload keys take payload values; all other keys keep their old values |
| Snapshot.MergeIdempotent | custom_components/earn_e_p1/coordinator.py:51-53 | merging the same payload twice gives the same snapshot as merging it once |
| Snapshot.MergeAllKeys | custom_components/earn_e_p1/coordinator.py:51-53 | after a run of merges, a key is present iff the base or some payload had it: keys are never dropped |
| Snapshot.MergeAllLastWins | custom_components/earn_e_p1/coordinator.py:51-53 | after a run of merges, each key holds the value of the last payload carrying it |
| Snapshot.MergeAllKeepsUntouched | custom_components/earn_e_p1/coordinator.py:51-53 | a key no payload carries keeps its base value |
| Snapshot.MergeAllKeepsLatest | custom_components/earn_e_p1/coordinator.py:51-54 | the snapshot after any run of merges holds the latest observation of every key and nothing else |
| EarnCoordinator.Create | custom_components/earn_e_p1/coordinator.py:69-89 | a new coordinator has the given host and seeded serial, an empty snapshot, no model, version or transport, and identifier `serial or host` |
| EarnCoordinator.Receive | custom_components/earn_e_p1/coordinator.py:27-54 | a packet from another host, an undecodable one or a non-object one changes nothing; otherwise the snapshot is overridden by the payload; `model` is overwritten when present and kept when absent; `swVersion` is stored as its `str()` when present and kept when absent; the serial changes only from None to the packet's `serial` |
| EarnCoordinator.Run | custom_components/earn_e_p1/coordinator.py:27-54 | no packet sequence changes the host, the identifier or the transport |
| EarnCoordinator.Start | custom_components/earn_e_p1/coordinator.py:91-100 | starting binds the default port: it succeeds iff that port is free and the OS raises nothing, and the running coordinator then holds exactly that port; a held port fails with `OSError`; otherwise the OS error propagates |
| EarnCoordinator.Stop | custom_components/earn_e_p1/coordinator.py:102-107 | stopping closes a transport iff one was held and leaves no port held; nothing else changes |
| EarnCoordinator.ReceiveIdempotent | custom_components/earn_e_p1/coordinator.py:27-54 | a duplicated packet has no further effect |
| EarnCoordinator.IdentifierFixedAtConstruction | custom_components/earn_e_p1/coordinator.py:83-88 | a new coordinator has an empty snapshot and the seeded serial; its identifier is `serial or host` and stays so whatever arrives |
| EarnCoordinator.RunMergesAcceptedPayloads | custom_components/earn_e_p1/coordinator.py:29-54 | the snapshot after any packet sequence equals the merge, in order, of the object payloads that came from the configured host |
| EarnCoordinator.SerialSticky | custom_components/earn_e_p1/coordinator.py:42-45 | once a serial is held, no packet sequence changes it |
| EarnCoordinator.SerialIsFirstNonNull | custom_components/earn_e_p1/coordinator.py:42-45 | starting without a serial, the serial stays None iff no accepted packet carries a non-null one; otherwise it is the serial of the first accepted packet that does |
| EarnCoordinator.ModelIsLatest | custom_components/earn_e_p1/coordinator.py:46-47 | the model after a run is the `model` of the last accepted packet carrying one, or the previous model |
| EarnCoordinator.SwVersionIsLatest | custom_components/earn_e_p1/coordinator.py:48-49 | the software version after a run is the `str()` of the `swVersion` of the last accepted packet carrying one, or the previous version |
| EarnCoordinator.StopIdempotent | custom_components/earn_e_p1/coordinator.py:102-107 | a second stop closes nothing; stopping a coordinator that never started closes nothing |
| P1Coordinator.Create | custom_components/p1_meter/coordinator.py:64-76 | a new coordinator has the given host, an empty snapshot and no serial, model, version or transport |
| P1Coordinator.Receive | custom_components/p1_meter/coordinator.py:26-49 | a foreign or undecodable packet changes nothing; otherwise the snapshot is overridden by the payload and serial, model and `sw_version` are overwritten whenever present |
| P1Coordinator.Run | custom_components/p1_meter/coordinator.py:26-49 | handling any packet sequence keeps the host and the transport |
| P1Coordinator.Start | custom_components/p1_meter/coordinator.py:78-87 | starting binds the default port: it succeeds iff that port is free and the OS raises nothing, and the running coordinator then holds exactly that port; a held port fails with `OSError`; otherwise the OS error propagates |
| P1Coordinator.Stop | custom_components/p1_meter/coordinator.py:89-94 | stopping closes a transport iff one was held and leaves no port held |
| P1Coordinator.ReceiveIdempotent | custom_components/p1_meter/coordinator.py:26-49 | a duplicated packet has no further effect |
| P1Coordinator.RunMergesAcceptedPayloads | custom_components/p1_meter/coordinator.py:28-49 | the snapshot after any packet sequence is the in-order merge of the payloads from the configured host |
| P1Coordinator.IdentityIsLatest | custom_components/p1_meter/coordinator.py:38-44 | serial, model and software version after a run are those of the last accepted packet carrying each key (last write wins), or the previous values |
| P1Coordinator.CreateAndStop | custom_components/p1_meter/coordinator.py:64-94 | a new coordinator has an empty snapshot and no identity; stopping twice closes at most once |
| Listener.Candidate | custom_components/earn_e_p1/config_flow.py:57-77 | a datagram resolves a pending listener iff its source passes the filter and it is a meter-like JSON object; the device is its source with the object's `serial` (or None) |
| Listener.OnDatagram | custom_components/earn_e_p1/config_flow.py:52-77 | a resolved future never changes; a pending one takes what the datagram yields |
| Listener.Resolve | custom_components/earn_e_p1/config_flow.py:52-77 | whatever the listener resolves to is a device at a source the filter lets through |
| Listener.ResolvesOnFirstAccepted | custom_components/earn_e_p1/config_flow.py:52-77 | the listen future resolves iff some datagram passes the source filter and is a meter-like JSON object; it resolves to what the first such datagram yields, and later datagrams are ignored |
| Listener.FoundComesFromFilteredSource | custom_components/earn_e_p1/config_flow.py:57-77 | with a non-empty host filter only that host can be found; the found serial is the `serial` (or None) of a meter-like object that host sent |
| Listener.UnfilteredAcceptsAnySource | custom_components/earn_e_p1/config_flow.py:57-70 | with no filter or an empty one, the listener resolves iff some datagram from any source carries a meter-like object |
| Listener.FirstIndex | custom_components/earn_e_p1/config_flow.py:54-55 | yields the first datagram the listener accepts, with none accepted before it |
| Listener.Delivered | custom_components/earn_e_p1/config_flow.py:116-120 | a datagram is seen by the listener iff it arrived before the deadline (membership only; order is stated by `Listener.ResolvesOnFirstArrival`) |
| Listener.ResolvesOnFirstArrival | custom_components/earn_e_p1/config_flow.py:108-122 | handling the arrivals before a deadline in arrival order resolves the listener iff some such arrival is accepted, and then to what the first accepted arrival yields |
| Listener.ListenForDevice | custom_components/earn_e_p1/config_flow.py:90-122 | the listener binds the default port; if another endpoint holds it the result is `OSError`, and any other bind error propagates; in both cases nothing is closed; after a bind the transport is closed exactly once; the result is a timeout iff no arrival before `timeout` seconds is accepted; otherwise it is the device that the first accepted arrival yields |
| EarnConfigFlow.ValidateAndCreate | custom_components/earn_e_p1/config_flow.py:148-185 | a bind `OSError` or a timeout gives the form with `cannot_connect`; another exception gives `unknown`; a found device gives an abort iff its `serial or host` is configured, and otherwise an entry titled with the host, holding host and found serial, under unique id `serial or host` |
| EarnConfigFlow.StepDiscoveryConfirm | custom_components/earn_e_p1/config_flow.py:187-207 | without input the confirmation form shows the discovered host; on confirmation it aborts iff `serial or host` is configured, and creates the entry for the discovered device iff it is not |
| EarnConfigFlow.StepUser | custom_components/earn_e_p1/config_flow.py:124-146 | input goes to validation; without input, auto-discovery either finds a device and moves to confirmation, or (on timeout or bind `OSError`) shows the manual form; it never creates an entry directly; any other exception escapes |
| EarnConfigFlow.ReconfiguredSerial | custom_components/earn_e_p1/config_flow.py:255-261 | a found device with a truthy serial gives that serial; in every other case (a falsy serial found, a timeout, a bind error) the stored serial is kept; so the result is truthy iff the validated or the stored serial is |
| EarnConfigFlow.StepReconfigure | custom_components/earn_e_p1/config_flow.py:209-273 | without input the form defaults to the stored host; with input the form (with `unknown`, never `cannot_connect`) comes back iff an unexpected exception was raised; otherwise, after a device was found, a timeout or a bind `OSError`, the step aborts iff another entry holds the resulting `serial or host` and updates host and serial in place under that unique id iff none does |
| EarnConfigFlow.CreatedEntryWasObserved | custom_components/earn_e_p1/config_flow.py:148-185 | manual validation creates an entry only for a meter-like object that arrived within 65 seconds from the entered host; the stored serial is the `serial` of that object |
| EarnConfigFlow.ConfirmMatchesManualEntry | custom_components/earn_e_p1/config_flow.py:178-202 | confirming a discovered device and validating its host by hand produce the same entry, unique id and duplicate check |
| EarnConfigFlow.AutoDiscoveryMatchesManualEntry | custom_components/earn_e_p1/config_flow.py:124-207 | when datagrams are listed in arrival order, a found device leads to the confirmation form, and confirming it creates exactly the entry that validating the discovered host by hand on the same network creates |
| EarnConfigFlow.CreatedEntryKeepsUniqueIdsDistinct | custom_components/earn_e_p1/config_flow.py:178-202 | storing the entry that manual validation or confirmation creates never makes two entries share a unique id |
| EarnConfigFlow.ReconfigureKeepsUniqueIdsDistinct | custom_components/earn_e_p1/config_flow.py:263-273 | a committed reconfiguration never makes two entries share a unique id |
| P1ConfigFlow.StepUser | custom_components/p1_meter/config_flow.py:26-42 | without input the host form is shown; with input the step aborts iff an entry already has the host as unique id, and otherwise creates an entry whose data is the input and whose unique id is the host |
| P1ConfigFlow.CreatedEntryKeepsUniqueIdsDistinct | custom_components/p1_meter/config_flow.py:36-42 | storing the entry a user flow creates never makes two entries share a unique id |
| P1ConfigFlow.StepReconfigure | custom_components/p1_meter/config_flow.py:44-67 | as written: aborts iff any entry, the reconfigured one included, has the new host as unique id; otherwise merges the input into the entry's data and keeps the entry's old unique id |
| P1ConfigFlow.ReconfigureLeavesStaleUniqueId | custom_components/p1_meter/config_flow.py:61-67 | after moving entry e1 from 10.0.0.1 to 10.0.0.2, its unique id is still 10.0.0.1, so a user flow for 10.0.0.2 creates a duplicate entry; re-submitting the entry's own host aborts |
| P1ConfigFlow.StepReconfigureIntended | custom_components/p1_meter/config_flow.py:44-67 | corrected reconfiguration: aborts iff another entry holds the new host; otherwise it updates the data and re-keys the entry by the new host |
| P1ConfigFlow.IntendedReconfigureBlocksDuplicates | custom_components/p1_meter/config_flow.py:26-67 | after a corrected reconfiguration, a user flow for the new host aborts and unique ids stay distinct |
| EarnSetup.SetupEntry | custom_components/earn_e_p1/__init__.py:22-45 | warns iff no serial is stored; the entry loads iff the default port is free and the OS raises nothing; a held port or an OS `OSError` gives not-ready and any other error propagates; runtime data is assigned after starting and before forwarding platforms; the coordinator runs seeded with the stored host and serial, with identifier `serial or host`, holding the default port |
| EarnSetup.UnloadEntry | custom_components/earn_e_p1/__init__.py:48-51 | unloading stops the listener before unloading platforms; it closes the transport iff one was held; it returns the platforms' result |
| EarnSetup.SetupThenUnloadReleasesPort | custom_components/earn_e_p1/__init__.py:22-51 | on a host where the default port is free, a loaded entry holds it, so another bind of it fails with `OSError`; unloading closes the transport and the port binds again |
| P1Setup.SetupEntry | custom_components/p1_meter/__init__.py:16-22 | the entry loads iff the default port is free and the OS raises nothing; a held port raises `OSError`; every bind error propagates unchanged, never as not-ready, and no warning is logged; the coordinator starts with the stored host and no serial, holding the default port |
| P1Setup.UnloadEntry | custom_components/p1_meter/__init__.py:25-28 | unloading stops the listener before unloading platforms and closes the transport iff one was held |
| P1Setup.SetupThenUnloadReleasesPort | custom_components/p1_meter/__init__.py:16-28 | on a host where the default port is free, a loaded entry holds it, so another bind of it fails with `OSError`; unloading closes the transport and the port binds again |
| Fields.Descriptions | custom_components/p1_meter/sensor.py:20-29 | one entity description per field, in table order, carrying its key, translation key, unit and classes |
| Fields.FieldByKey | custom_components/p1_meter/sensor.py:32 | every table key is in the lookup; each entry maps to a table field that carries that key |
| Fields.FieldByKeyResolves | custom_components/earn_e_p1/sensor.py:28 | with distinct keys each key resolves to the one field carrying it |
| Fields.FieldByKeySize | custom_components/earn_e_p1/sensor.py:28 | with distinct keys the lookup has as many entries as the table |
| P1Const.SensorFields | custom_components/p1_meter/const.py:37-128 | ten fields with distinct keys, each read from the JSON key of the same name; power, voltage and current fields are exactly the real-time ones; energy and gas fields are exactly the increasing totals; the rest are measurements |
| Fields.NativeValue | custom_components/earn_e_p1/sensor.py:66-71 | a sensor shows the snapshot's value under its JSON key, or None when the key is missing (an empty snapshot included) |
| EarnSensor.Sensors | custom_components/earn_e_p1/sensor.py:31-55 | one sensor per field, each with its own description and a unique id of the coordinator identifier, `_`, and the key |
| EarnSensor.Available | custom_components/earn_e_p1/sensor.py:57-64 | a sensor is available iff the base entity is and its JSON key is in the snapshot |
| EarnSensor.AvailableShowsValue | custom_components/earn_e_p1/sensor.py:57-71 | a sensor is available iff the base entity is and its JSON key is in the snapshot; it shows the observed value, or None when its key is missing |
| EarnSensor.AvailableAfterRun | custom_components/earn_e_p1/sensor.py:57-71 | after a run of packets a sensor is available iff the base entity is and its key was already in the snapshot or came in some accepted packet; it then shows the value of the last packet carrying the key |
| EarnSensor.SensorsAreDistinct | custom_components/earn_e_p1/sensor.py:28-55 | with distinct field keys each sensor resolves to its own field and no two sensors share a unique id |
| EarnSensor.UniqueIdsStable | custom_components/earn_e_p1/sensor.py:55 | sensor unique ids never change while packets arrive, whatever serial they carry |
| P1Sensor.Sensors | custom_components/p1_meter/sensor.py:35-61 | one sensor per field of the table, each resolving to that field, with unique id host, `_`, key |
| P1Sensor.Device | custom_components/p1_meter/sensor.py:63-72 | the device is identified under domain `p1_meter` by the serial when truthy, else by the host, and carries the live model and software version |
| P1Sensor.Available | custom_components/p1_meter/sensor.py:74-79 | a sensor is available iff its JSON key is in the snapshot |
| P1Sensor.AvailableShowsValue | custom_components/p1_meter/sensor.py:74-86 | a sensor is available iff its JSON key is in the snapshot; it then shows the observed value, and otherwise None |
| P1Sensor.AvailableAfterRun | custom_components/p1_meter/sensor.py:74-86 | after a run of packets a sensor is available iff its key was already in the snapshot or came in some accepted packet; it then shows the value of the last packet carrying the key |
| P1Sensor.IdentityAfterPacket | custom_components/p1_meter/sensor.py:61-68 | a packet never changes sensor unique ids; a packet with a truthy serial makes that serial the device identifier |
| Scenarios.SerialPoliciesDiffer | custom_components/p1_meter/coordinator.py:38-40 | for packets with serial "A" then "B", EARN-E keeps "A" and P1 ends with "B"; both snapshots hold "B" |
| Scenarios.PartialTelegramsAccumulate | custom_components/earn_e_p1/coordinator.py:51-54 | a power packet followed by an energy packet leaves both readings in the snapshot |
| Scenarios.ListenerBlockedByRunningCoordinator | custom_components/earn_e_p1/config_flow.py:230-238 | setting up an entry on a host where the default port is free makes its coordinator hold that port, so a listen attempt on the same host fails with `OSError` and closes nothing |
| Scenarios.ReconfigureWhilePortHeld | custom_components/earn_e_p1/config_flow.py:230-273 | reconfiguring a loaded entry while its own coordinator holds the port moves the entry to the new host with its stored serial, whatever arrives, unless another entry holds the resulting unique id |
| Scenarios.CreatedEntryRunsUnderItsUniqueId | custom_components/earn_e_p1/__init__.py:22-45 | an entry created by validation, once set up, runs a coordinator whose identifier is the entry's unique id |

## Left out

- Sockets, `asyncio` and `json.loads` are not modelled. A datagram is given with its decoded payload. A listen session is given the datagrams that arrive, with their arrival times. Binding is decided by the ports already held and an optional operating-system error, not by a system call.
- Listener notification through `async_set_updated_data` is not modelled. The model keeps the snapshot the coordinator would hand to its listeners.
- Logging is not modelled. The EARN-E missing-serial warning is the only log line kept, as a setup effect. The debug and error messages of `error_received` and `connection_lost` are left out, because they change no state.
- Home Assistant's own flow machinery is not modelled:
  - `single_config_entry` (the `single_instance_allowed` abort);
  - unique-id checks against other flows in progress;
  - entry storage;
  - the reload that `async_update_reload_and_abort` triggers.
- `_abort_if_unique_id_configured` is modelled as "some stored entry has this unique id". The reconfigured entry itself counts.
- The EARN-E `const.py` and `entity.py` files are not part of this model:
  - The EARN-E field table is taken as a parameter of `EarnSensor`.
  - The base availability of the EARN-E entity is a boolean parameter.
  - The EARN-E device-registry entry is not modelled.
  - The EARN-E port is taken to be 16121, the same as the P1 Meter's.
- `str()` of a non-string value is an uninterpreted function. Nothing is stated about the text it produces.
- P1Coordinator.Receive: requires that a decodable packet from the configured host is a JSON object (`Handled`). The source does not check the decoded value's type:
  - a number, boolean or `null` raises `TypeError` at the first `in` test;
  - a string or list that contains `"serial"`, `"model"` or `"sw_version"` (as an element, or for a string as a substring) raises `TypeError` when it is indexed by that key;
  - any other string or list reaches `dict.update`: `[]` and `""` change nothing, a list of two-element items such as `[["power_delivered", 1.0]]` or `["ab"]` is merged as key/value pairs, and anything else raises.
  None of these paths is modelled.
- EarnSensor.Sensors: its sensors are stated to resolve to a field carrying the same key, not to the field itself. The identity of the field holds only when keys are distinct, and `EarnSensor.SensorsAreDistinct` states it under that condition.
- Arrival times in a `Network` are not required to increase along the sequence. `EarnConfigFlow.AutoDiscoveryMatchesManualEntry` assumes they do (`InArrivalOrder`), as a socket hands packets over in the order they arrive.
- The form schemas (`vol.Schema`) are not modelled. Submitted input is assumed to carry a string under `host` (`HostInput`).

## Findings

| source | as written | input that shows it | evidently intended | confidence | as-written member | corrected member |
|---|---|---|---|---|---|---|
| custom_components/p1_meter/config_flow.py:61-67 | reconfiguration keys the flow by the new host but does not pass `unique_id` on; the entry keeps its old host as unique id; the duplicate check also counts the entry being reconfigured | entry e1 (host and unique id 10.0.0.1) reconfigured to 10.0.0.2; then a user flow for 10.0.0.2 | the entry is re-keyed by its new host, so a second entry for 10.0.0.2 is refused; the entry's own id does not block it | medium, not executed | P1ConfigFlow.ReconfigureLeavesStaleUniqueId | P1ConfigFlow.StepReconfigureIntended |
