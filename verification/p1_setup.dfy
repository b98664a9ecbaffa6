/** `async_setup_entry` / `async_unload_entry` of the P1 Meter integration. */
module P1Setup {
  import opened Json
  import opened Wire
  import opened Flow
  import opened Lifecycle
  import C = P1Coordinator

  /** Set up an entry: build the coordinator from the stored host alone, start
      it (any exception propagates unchanged), then assign `runtime_data` and
      forward the platforms. */
  function SetupEntry(entry: ConfigEntry, s: Sockets): (r: SetupRun<C.Coordinator>)
    requires HostInput(entry.data)
    ensures r.outcome.Loaded? <==> DefaultPort !in s.held && s.fault.None?
    ensures DefaultPort in s.held ==> r.outcome == SetupRaised(OSError)
    ensures DefaultPort !in s.held && s.fault.Some? ==> r.outcome == SetupRaised(s.fault.value)
    ensures !r.outcome.NotReady?
    ensures WarnMissingSerial !in r.effects
    ensures AssignRuntimeData in r.effects <==> r.outcome.Loaded?
    ensures ForwardPlatforms in r.effects <==> r.outcome.Loaded?
    ensures r.outcome.Loaded? ==>
      && Precedes(r.effects, StartListener, AssignRuntimeData)
      && Precedes(r.effects, AssignRuntimeData, ForwardPlatforms)
    ensures r.outcome.Loaded? ==>
      && r.outcome.runtime.host == entry.data[ConfHost].s
      && r.outcome.runtime.serial == JNull
      && r.outcome.runtime.data == map[]
      && C.Ports(r.outcome.runtime) == {DefaultPort}
  {
    var coordinator := C.Create(entry.data[ConfHost].s);
    match C.Start(coordinator, s)
    case Started(running) =>
      var effects := [StartListener, AssignRuntimeData, ForwardPlatforms];
      assert effects[0] == StartListener && effects[1] == AssignRuntimeData && effects[2] == ForwardPlatforms;
      SetupRun(effects, Loaded(running))
    case StartFailed(e) => SetupRun([StartListener], SetupRaised(e))
  }

  /** Unload an entry: stop the coordinator, then unload the platforms. */
  function UnloadEntry(runtime: C.Coordinator, platformsUnloaded: bool): (r: UnloadRun<C.Coordinator>)
    ensures Precedes(r.effects, StopListener, UnloadPlatforms)
    ensures C.Ports(r.stopped) == {}
    ensures r.closed <==> runtime.listening
    ensures r.unloaded == platformsUnloaded
    ensures r.stopped == runtime.(listening := false)
  {
    var stop := C.Stop(runtime);
    var effects := [StopListener, UnloadPlatforms];
    assert effects[0] == StopListener && effects[1] == UnloadPlatforms;
    UnloadRun(effects, stop.stopped, stop.closed, platformsUnloaded)
  }

  /** On a host where the default port is free, a loaded entry holds that
      port until it is unloaded, so any further bind of it fails with
      `OSError`; unloading closes the transport exactly once and frees the
      port again. */
  lemma SetupThenUnloadReleasesPort(entry: ConfigEntry, s: Sockets, platformsUnloaded: bool)
    requires HostInput(entry.data)
    requires BindPort(DefaultPort, s).Bound?
    ensures var setup := SetupEntry(entry, s);
      && setup.outcome.Loaded?
      && BindPort(DefaultPort, Holding(s, C.Ports(setup.outcome.runtime))) == BindFailed(OSError)
      && UnloadEntry(setup.outcome.runtime, platformsUnloaded).closed
      && BindPort(DefaultPort, Holding(s, C.Ports(UnloadEntry(setup.outcome.runtime, platformsUnloaded).stopped))) == Bound
  {
  }
}
