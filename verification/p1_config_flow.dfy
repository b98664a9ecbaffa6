/** The Dongle Connect P1 config flow: the entered host is the unique id and is
    not validated by listening. */
module P1ConfigFlow {
  import opened Json
  import opened Flow

  function Title(host: string): string {
    "P1 Meter (" + host + ")"
  }

  /** `async_step_user`: show the host form, or key the flow by the entered
      host, abort if an entry already has it, and create an entry whose data is
      the submitted input. */
  function StepUser(input: Option<Object>, entries: seq<ConfigEntry>): (r: FlowResult)
    requires input.Some? ==> HostInput(input.value)
    ensures input.None? <==> r.ShowForm?
    ensures input.None? ==> r == ShowForm(UserStep, None, None)
    ensures input.Some? ==>
      (r.AbortAlreadyConfigured? <==> Configured(entries, input.value[ConfHost]))
    ensures r.CreateEntry? <==> input.Some? && !Configured(entries, input.value[ConfHost])
    ensures r.CreateEntry? ==>
      && r.uniqueId == input.value[ConfHost]
      && r.data == input.value
      && r.title == Title(input.value[ConfHost].s)
      && !Configured(entries, r.uniqueId)
  {
    match input
    case None => ShowForm(UserStep, None, None)
    case Some(inp) =>
      var uid := inp[ConfHost];
      if Configured(entries, uid) then AbortAlreadyConfigured
      else CreateEntry(Title(uid.s), inp, uid)
  }

  /** `async_step_reconfigure` as written: the flow is keyed by the entered
      host and aborts if ANY entry holds it (the reconfigured entry included);
      otherwise the entry's data is updated with the input and, since no
      `unique_id` is passed on, the entry keeps its old unique id. */
  function StepReconfigure(entry: ConfigEntry, input: Option<Object>, entries: seq<ConfigEntry>): (r: FlowResult)
    requires input.None? ==> ConfHost in entry.data
    requires input.Some? ==> HostInput(input.value)
    ensures input.None? ==> r == ShowForm(ReconfigureStep, None, Some(entry.data[ConfHost]))
    ensures input.Some? ==>
      (r.AbortAlreadyConfigured? <==> Configured(entries, input.value[ConfHost]))
    ensures r.UpdateAndReload? <==> input.Some? && !Configured(entries, input.value[ConfHost])
    ensures r.UpdateAndReload? ==>
      && r.entryId == entry.entryId
      && r.uniqueId == entry.uniqueId
      && r.data.Keys == entry.data.Keys + input.value.Keys
      && r.data[ConfHost] == input.value[ConfHost]
      && (forall k :: k in entry.data && k !in input.value ==> r.data[k] == entry.data[k])
  {
    match input
    case None => ShowForm(ReconfigureStep, None, Some(entry.data[ConfHost]))
    case Some(inp) =>
      if Configured(entries, inp[ConfHost]) then AbortAlreadyConfigured
      else UpdateAndReload(entry.entryId, entry.data + inp, entry.uniqueId)
  }

  /** The entries after a reconfiguration result has been applied. */
  function Apply(entries: seq<ConfigEntry>, r: FlowResult): seq<ConfigEntry> {
    if r.UpdateAndReload? then Updated(entries, r.entryId, r.data, r.uniqueId) else entries
  }

  /** As written, moving an entry to a new host leaves its unique id at the old
      host, so a later user flow for the new host is not stopped and creates a
      second entry for the same device; re-submitting the entry's own host is
      refused as already configured. */
  lemma ReconfigureLeavesStaleUniqueId()
    ensures
      var old1 := ConfigEntry("e1", JStr("10.0.0.1"), map[ConfHost := JStr("10.0.0.1")]);
      var input := map[ConfHost := JStr("10.0.0.2")];
      var after := Apply([old1], StepReconfigure(old1, Some(input), [old1]));
      && after[0].data[ConfHost] == JStr("10.0.0.2")
      && after[0].uniqueId == JStr("10.0.0.1")
      && StepUser(Some(input), after).CreateEntry?
      && StepReconfigure(old1, Some(map[ConfHost := JStr("10.0.0.1")]), [old1]).AbortAlreadyConfigured?
  {
    var old1 := ConfigEntry("e1", JStr("10.0.0.1"), map[ConfHost := JStr("10.0.0.1")]);
    var input := map[ConfHost := JStr("10.0.0.2")];
    assert !Configured([old1], input[ConfHost]);
    var after := Apply([old1], StepReconfigure(old1, Some(input), [old1]));
    assert after[0].uniqueId != JStr("10.0.0.2");
    assert !Configured(after, input[ConfHost]);
  }

  /** Reconfiguration as evidently intended: the duplicate check ignores the
      reconfigured entry itself, and the entry is re-keyed by its new host. */
  function StepReconfigureIntended(entry: ConfigEntry, input: Option<Object>, entries: seq<ConfigEntry>): (r: FlowResult)
    requires input.None? ==> ConfHost in entry.data
    requires input.Some? ==> HostInput(input.value)
    ensures input.None? ==> r == ShowForm(ReconfigureStep, None, Some(entry.data[ConfHost]))
    ensures input.Some? ==>
      (r.AbortAlreadyConfigured? <==> ClaimedByOther(entries, entry.entryId, input.value[ConfHost]))
    ensures r.UpdateAndReload? <==> input.Some? && !ClaimedByOther(entries, entry.entryId, input.value[ConfHost])
    ensures r.UpdateAndReload? ==>
      && r.entryId == entry.entryId
      && r.uniqueId == input.value[ConfHost]
      && r.data == entry.data + input.value
  {
    match input
    case None => ShowForm(ReconfigureStep, None, Some(entry.data[ConfHost]))
    case Some(inp) =>
      if ClaimedByOther(entries, entry.entryId, inp[ConfHost]) then AbortAlreadyConfigured
      else UpdateAndReload(entry.entryId, entry.data + inp, inp[ConfHost])
  }

  /** With the intended reconfiguration, once an entry has moved to a host, a
      user flow for that host is refused, and unique ids stay distinct. */
  lemma IntendedReconfigureBlocksDuplicates(entry: ConfigEntry, input: Object, entries: seq<ConfigEntry>)
    requires HostInput(input)
    requires entry in entries
    requires DistinctUniqueIds(entries)
    requires StepReconfigureIntended(entry, Some(input), entries).UpdateAndReload?
    ensures var after := Apply(entries, StepReconfigureIntended(entry, Some(input), entries));
      && StepUser(Some(input), after).AbortAlreadyConfigured?
      && DistinctUniqueIds(after)
  {
    var r := StepReconfigureIntended(entry, Some(input), entries);
    var after := Apply(entries, r);
    var i :| 0 <= i < |entries| && entries[i] == entry;
    assert after[i].uniqueId == input[ConfHost];
    UpdatePreservesDistinctUniqueIds(entries, entry.entryId, r.data, r.uniqueId);
  }

  /** A user flow never makes two entries share a unique id, if none did before. */
  lemma CreatedEntryKeepsUniqueIdsDistinct(input: Object, entries: seq<ConfigEntry>, entryId: string)
    requires HostInput(input)
    requires DistinctUniqueIds(entries)
    ensures DistinctUniqueIds(Added(entries, entryId, StepUser(Some(input), entries)))
  {
    var r := StepUser(Some(input), entries);
    if r.CreateEntry? {
      CreatePreservesDistinctUniqueIds(entries, ConfigEntry(entryId, r.uniqueId, r.data));
    }
  }
}
