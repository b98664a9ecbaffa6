/** The observable steps of setting up and unloading a config entry, in the
    order the integration performs them. */
module Lifecycle {
  import opened Wire

  datatype Effect =
    | WarnMissingSerial
    | StartListener
    | AssignRuntimeData
    | ForwardPlatforms
    | StopListener
    | UnloadPlatforms

  /** How `async_setup_entry` ends: loaded with a running coordinator as
      `runtime_data`, `ConfigEntryNotReady` (the host retries setup later), or
      an exception propagated unchanged. */
  datatype SetupOutcome<C> = Loaded(runtime: C) | NotReady | SetupRaised(error: Exception)

  datatype SetupRun<C> = SetupRun(effects: seq<Effect>, outcome: SetupOutcome<C>)

  /** How `async_unload_entry` ends: the stopped coordinator, whether a
      transport was closed, and the result of unloading the platforms. */
  datatype UnloadRun<C> = UnloadRun(effects: seq<Effect>, stopped: C, closed: bool, unloaded: bool)

  /** Effect `a` happens strictly before effect `b`. */
  predicate Precedes(effects: seq<Effect>, a: Effect, b: Effect) {
    exists i, j :: 0 <= i < j < |effects| && effects[i] == a && effects[j] == b
  }
}
