/** `async_setup_entry` / `async_unload_entry` of the EARN-E integration. */
module EarnSetup {
  import opened Json
  import opened Wire
  import opened Flow
  import opened Lifecycle
  import C = EarnCoordinator

  /** Set up an entry: warn when no serial is stored, build the coordinator
      seeded with the stored host and serial, start it (an `OSError` becomes
      not-ready), then assign `runtime_data` and forward the platforms. */
  function SetupEntry(entry: ConfigEntry, s: Sockets): (r: SetupRun<C.Coordinator>)
    requires HostInput(entry.data)
    ensures r.outcome.Loaded? <==> DefaultPort !in s.held && s.fault.None?
    ensures DefaultPort in s.held || s.fault == Some(OSError) ==> r.outcome == NotReady
    ensures DefaultPort !in s.held && s.fault == Some(OtherError) ==> r.outcome == SetupRaised(OtherError)
    ensures WarnMissingSerial in r.effects <==> Get(entry.data, "serial") == JNull
    ensures AssignRuntimeData in r.effects <==> r.outcome.Loaded?
    ensures ForwardPlatforms in r.effects <==> r.outcome.Loaded?
    ensures r.outcome.Loaded? ==>
      && Precedes(r.effects, StartListener, AssignRuntimeData)
      && Precedes(r.effects, AssignRuntimeData, ForwardPlatforms)
    ensures r.outcome.Loaded? ==>
      && r.outcome.runtime.host == entry.data[ConfHost].s
      && r.outcome.runtime.serial == Get(entry.data, "serial")
      && r.outcome.runtime.identifier == UniqueIdFor(Get(entry.data, "serial"), entry.data[ConfHost].s)
      && r.outcome.runtime.data == map[]
      && C.Ports(r.outcome.runtime) == {DefaultPort}
  {
    var host := entry.data[ConfHost].s;
    var serial := Get(entry.data, "serial");
    var warned := if serial == JNull then [WarnMissingSerial] else [];
    var coordinator := C.Create(host, serial);
    match C.Start(coordinator, s)
    case Started(running) =>
      var effects := warned + [StartListener, AssignRuntimeData, ForwardPlatforms];
      assert effects[|warned|] == StartListener && effects[|warned| + 1] == AssignRuntimeData;
      assert effects[|warned| + 2] == ForwardPlatforms;
      SetupRun(effects, Loaded(running))
    case StartFailed(OSError) => SetupRun(warned + [StartListener], NotReady)
    case StartFailed(OtherError) => SetupRun(warned + [StartListener], SetupRaised(OtherError))
  }

  /** Unload an entry: stop the coordinator, then unload the platforms. */
  function UnloadEntry(runtime: C.Coordinator, platformsUnloaded: bool): (r: UnloadRun<C.Coordinator>)
    ensures Precedes(r.effects, StopListener, UnloadPlatforms)
    ensures C.Ports(r.stopped) == {}
    ensures r.closed <==> runtime.listening
    ensures r.unloaded == platformsUnloaded
    ensures r.stopped == runtime.(listening := false)
  {
    var stop := C.Stop(runtime);
    var effects := [StopListener, UnloadPlatforms];
    assert effects[0] == StopListener && effects[1] == UnloadPlatforms;
    UnloadRun(effects, stop.stopped, stop.closed, platformsUnloaded)
  }

  /** On a host where the default port is free, a loaded entry holds that
      port until it is unloaded, so any further bind of it fails with
      `OSError`; unloading closes the transport exactly once and frees the
      port again. */
  lemma SetupThenUnloadReleasesPort(entry: ConfigEntry, s: Sockets, platformsUnloaded: bool)
    requires HostInput(entry.data)
    requires BindPort(DefaultPort, s).Bound?
    ensures var setup := SetupEntry(entry, s);
      && setup.outcome.Loaded?
      && BindPort(DefaultPort, Holding(s, C.Ports(setup.outcome.runtime))) == BindFailed(OSError)
      && UnloadEntry(setup.outcome.runtime, platformsUnloaded).closed
      && BindPort(DefaultPort, Holding(s, C.Ports(UnloadEntry(setup.outcome.runtime, platformsUnloaded).stopped))) == Bound
  {
  }
}
