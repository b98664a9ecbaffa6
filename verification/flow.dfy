/** What the config flows of both integrations exchange with the host
    application: stored entries, form and abort results, and the unique-id
    rule. Entry storage itself is not modelled: the entries of the domain are a
    sequence the flow reads. */
module Flow {
  import opened Json
  import opened Wire

  /** `CONF_HOST`. */
  const ConfHost: string := "host"

  /** A stored config entry of the integration's domain. */
  datatype ConfigEntry = ConfigEntry(entryId: string, uniqueId: JsonValue, data: Object)

  datatype StepId = UserStep | DiscoveryConfirmStep | ReconfigureStep

  /** The values a flow puts under `errors["base"]`. */
  datatype ErrorCode = CannotConnect | Unknown

  function ErrorKey(e: ErrorCode): string {
    match e
    case CannotConnect => "cannot_connect"
    case Unknown => "unknown"
  }

  /** What a flow step returns. `ShowForm.host` is the host shown on the form
      (a placeholder or a default), `UpdateAndReload` is
      `async_update_reload_and_abort`, and `Raises` is an exception escaping the
      step. */
  datatype FlowResult =
    | ShowForm(step: StepId, error: Option<ErrorCode>, host: Option<JsonValue>)
    | CreateEntry(title: string, data: Object, uniqueId: JsonValue)
    | AbortAlreadyConfigured
    | UpdateAndReload(entryId: string, data: Object, uniqueId: JsonValue)
    | Raises(exception: Exception)

  /** The host form's schema: a required string under `host`. */
  predicate HostInput(input: Object) {
    ConfHost in input && input[ConfHost].JStr?
  }

  /** Some entry of the domain already has unique id `uid`. */
  predicate Configured(entries: seq<ConfigEntry>, uid: JsonValue) {
    exists i :: 0 <= i < |entries| && entries[i].uniqueId == uid
  }

  /** Some entry other than `entryId`, ignored ones included, holds `uid`. */
  predicate ClaimedByOther(entries: seq<ConfigEntry>, entryId: string, uid: JsonValue) {
    exists i :: 0 <= i < |entries| && entries[i].entryId != entryId && entries[i].uniqueId == uid
  }

  /** `serial or host`: the stable identity of a device. */
  function UniqueIdFor(serial: JsonValue, host: string): (uid: JsonValue)
    ensures uid == serial || uid == JStr(host)
    ensures uid == serial <==> Truthy(serial) || serial == JStr(host)
    ensures Truthy(uid) <==> Truthy(serial) || host != ""
  {
    Or(serial, JStr(host))
  }

  /** No two distinct entries share a unique id. */
  ghost predicate DistinctUniqueIds(entries: seq<ConfigEntry>) {
    forall i, j :: 0 <= i < |entries| && 0 <= j < |entries| && entries[i].entryId != entries[j].entryId ==>
      entries[i].uniqueId != entries[j].uniqueId
  }

  /** The entries after entry `entryId` got new data and unique id. */
  function Updated(entries: seq<ConfigEntry>, entryId: string, data: Object, uid: JsonValue): (r: seq<ConfigEntry>)
    ensures |r| == |entries|
    ensures forall i :: 0 <= i < |r| ==> r[i].entryId == entries[i].entryId
  {
    seq(|entries|, i requires 0 <= i < |entries| =>
      if entries[i].entryId == entryId then ConfigEntry(entryId, uid, data) else entries[i])
  }

  /** The entries after a flow result has been applied: a created entry is
      stored under `entryId` after the existing ones, which stay as they are,
      and its unique id counts as configured from then on; every other result
      stores nothing new. */
  function Added(entries: seq<ConfigEntry>, entryId: string, r: FlowResult): (after: seq<ConfigEntry>)
    ensures |after| == |entries| + (if r.CreateEntry? then 1 else 0)
    ensures after[..|entries|] == entries
    ensures r.CreateEntry? ==> after[|entries|] == ConfigEntry(entryId, r.uniqueId, r.data)
    ensures r.CreateEntry? ==> Configured(after, r.uniqueId)
  {
    if r.CreateEntry? then entries + [ConfigEntry(entryId, r.uniqueId, r.data)] else entries
  }

  /** Giving one entry a unique id no other entry holds keeps unique ids distinct. */
  lemma UpdatePreservesDistinctUniqueIds(entries: seq<ConfigEntry>, entryId: string, data: Object, uid: JsonValue)
    requires DistinctUniqueIds(entries)
    requires forall i :: 0 <= i < |entries| && entries[i].entryId != entryId ==> entries[i].uniqueId != uid
    ensures DistinctUniqueIds(Updated(entries, entryId, data, uid))
  {
  }

  /** Adding an entry under a unique id nobody holds keeps unique ids distinct. */
  lemma CreatePreservesDistinctUniqueIds(entries: seq<ConfigEntry>, added: ConfigEntry)
    requires DistinctUniqueIds(entries)
    requires !Configured(entries, added.uniqueId)
    ensures DistinctUniqueIds(entries + [added])
  {
  }
}
