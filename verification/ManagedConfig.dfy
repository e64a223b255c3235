/**
 The managed part of a child's configuration (src/node-control.ts:925-1115): an arbitrary JSON tree in which an
 application overwrites what Crabhelm manages and nothing else.
 */
module ManagedConfig {
  import opened Common
  import opened ClawRecords

  /** Object keys: those the program names, and all others. */
  datatype Key =
    | Agents | Defaults | Model | Primary | Fallbacks | Channels | Slack | Enabled | DmPolicyKey | GroupPolicyKey
    | Logging | Level | Plugins | Allow | Entries | ClawRouterKey | DiagnosticsOtel | Models | Providers | BaseUrl
    | ApiKey | Source | Provider | Id | Headers | OpenAi | Diagnostics | OtelKey | Endpoint | TracesEndpoint
    | MetricsEndpoint | Protocol | ServiceName | Traces | Metrics | Logs | CaptureContent | SampleRate
    | FlushIntervalMs | Crabhelm | ConfigKey | AppliedGeneration | AppliedDesiredHash | AppliedManagedHash
    | IngressDisabled | DisabledChannelStates
    | Name(name: string)

  /** JSON values; a digest of managed state is identified with what it digests. */
  datatype Value =
    | Null
    | Bool(b: bool)
    | Num(literal: string)
    | Text(s: string)
    | Hash(of: Managed)
    | Arr(items: seq<Value>)
    | Obj(fields: Record)

  type Record = map<Key, Value>

  datatype RouterBinding = RouterBinding(baseUrl: string, projectId: string)

  datatype ManagedOtel = ManagedOtel(
    enabled: bool, endpoint: Option<string>, serviceName: string, traces: bool, metrics: bool, logs: bool,
    sampleRate: string, flushIntervalMs: string)

  /** `ManagedDesired` */
  datatype Managed = Managed(
    model: string, fallbackModels: seq<string>, router: Option<RouterBinding>, legacyOpenAiBaseUrl: Option<string>,
    slackEnabled: bool, dmPolicy: DmPolicy, groupPolicy: GroupPolicy, logLevel: LogLevel, otel: ManagedOtel)

  // ---------- Records ----------

  function Get(r: Record, k: Key): Option<Value> { if k in r then Some(r[k]) else None }

  /** `asRecord` */
  function AsRecord(v: Option<Value>): Record { if v.Some? && v.value.Obj? then v.value.fields else map[] }

  function Child(r: Record, k: Key): Record { AsRecord(Get(r, k)) }

  /** Edits the record under a key, after `ensureRecord`. */
  function Put(r: Record, k: Key, child: Record): Record { r[k := Obj(child)] }

  // ---------- Texts ----------

  function DmText(p: DmPolicy): string {
    match p case Pairing => "pairing" case DmAllowlist => "allowlist" case DmDisabled => "disabled"
  }

  function ReadDm(v: Option<Value>): DmPolicy {
    if v == Some(Text("allowlist")) then DmAllowlist else if v == Some(Text("disabled")) then DmDisabled else Pairing
  }

  function GroupText(p: GroupPolicy): string { if p.GroupDisabled? then "disabled" else "allowlist" }

  function ReadGroup(v: Option<Value>): GroupPolicy {
    if v == Some(Text("disabled")) then GroupDisabled else GroupAllowlist
  }

  function LevelText(l: LogLevel): string {
    match l case Error => "error" case Warn => "warn" case Info => "info" case Debug => "debug"
  }

  function ReadLevel(v: Option<Value>): LogLevel {
    if v == Some(Text("error")) then Error else if v == Some(Text("warn")) then Warn
    else if v == Some(Text("debug")) then Debug else Info
  }

  function LowerChar(c: char): char { if 'A' <= c <= 'Z' then (c as int + 32) as char else c }

  function Lower(s: string): string { seq(|s|, i requires 0 <= i < |s| => LowerChar(s[i])) }

  const PROJECT := "X-ClawRouter-Project-Id"
  const DYNAMIC: set<string> := {
    "x-clawrouter-agent-id", "x-clawrouter-parent-agent-id", "x-clawrouter-session-id", "x-clawrouter-request-id",
    "x-request-id"}

  predicate IsDynamic(k: Key) { k.Name? && Lower(k.name) in DYNAMIC }

  predicate IsProject(k: Key) { k.Name? && Lower(k.name) == Lower(PROJECT) }

  function StripSlashes(s: string): string { if s != "" && s[|s| - 1] == '/' then StripSlashes(s[..|s| - 1]) else s }

  function SignalPath(endpoint: string, signal: string): string { StripSlashes(endpoint) + "/v1/" + signal }

  function Texts(xs: seq<string>): seq<Value> { if xs == [] then [] else [Text(xs[0])] + Texts(xs[1..]) }

  /** `items.filter((item) => typeof item === "string")` */
  function OnlyTexts(items: seq<Value>): seq<string> {
    if items == [] then []
    else (if items[0].Text? then [items[0].s] else []) + OnlyTexts(items[1..])
  }

  function TextList(v: Option<Value>): seq<string> { if v.Some? && v.value.Arr? then OnlyTexts(v.value.items) else [] }

  // ---------- Applying ----------

  function AgentsAfter(agents: Record, d: Managed): Record {
    Put(agents, Defaults,
      Child(agents, Defaults)[Model := Obj(map[Primary := Text(d.model), Fallbacks := Arr(Texts(d.fallbackModels))])])
  }

  function ChannelsAfter(channels: Record, d: Managed): Record {
    Put(channels, Slack,
      Child(channels, Slack)[Enabled := Bool(d.slackEnabled)][DmPolicyKey := Text(DmText(d.dmPolicy))]
      [GroupPolicyKey := Text(GroupText(d.groupPolicy))])
  }

  const MANAGED_IDS: set<string> := {"crabhelm", "slack", "clawrouter", "diagnostics-otel"}

  /** First occurrences of the ids Crabhelm does not manage, in order. */
  function Unmanaged(ids: seq<string>): seq<string> {
    if ids == [] then []
    else
      var front := Unmanaged(ids[..|ids| - 1]);
      var last := ids[|ids| - 1];
      if last in MANAGED_IDS || last in front then front else front + [last]
  }

  function ManagedIds(d: Managed): seq<string> {
    ["crabhelm", "slack"] + (if d.router.Some? then ["clawrouter"] else []) +
    (if d.otel.enabled then ["diagnostics-otel"] else [])
  }

  function AllowAfter(ids: seq<string>, d: Managed): seq<string> { Unmanaged(ids) + ManagedIds(d) }

  function SetEntry(entries: Record, k: Key, enabled: bool): Record {
    Put(entries, k, Child(entries, k)[Enabled := Bool(enabled)])
  }

  function EntriesAfter(entries: Record, routed: bool, observed: bool): Record {
    SetEntry(SetEntry(entries, ClawRouterKey, routed), DiagnosticsOtel, observed)
  }

  function PluginsAfter(plugins: Record, d: Managed): Record {
    Put(plugins[Allow := Arr(Texts(AllowAfter(TextList(Get(plugins, Allow)), d)))], Entries,
      EntriesAfter(Child(plugins, Entries), d.router.Some?, d.otel.enabled))
  }

  const ROUTER_API_KEY: Record :=
    map[Source := Text("env"), Provider := Text("default"), Id := Text("CLAWROUTER_API_KEY")]

  function CleanHeaders(headers: Record): Record {
    map k | k in headers && !IsDynamic(k) && !IsProject(k) :: headers[k]
  }

  function RouterAfter(provider: Record, router: RouterBinding): Record {
    var headers := CleanHeaders(Child(provider, Headers))[Name(PROJECT) := Text(router.projectId)];
    provider[BaseUrl := Text(router.baseUrl)][ApiKey := Obj(ROUTER_API_KEY)][Headers := Obj(headers)]
  }

  /** An `openai` provider that is not an object has no keys either, and goes too. */
  function OpenAiAfter(providers: Record): Record {
    if OpenAi !in providers then providers
    else
      var openai := Child(providers, OpenAi) - {BaseUrl};
      if openai == map[] then providers - {OpenAi} else Put(providers, OpenAi, openai)
  }

  function Routed(providers: Record, d: Managed): Record {
    if d.router.Some? then Put(providers, ClawRouterKey, RouterAfter(Child(providers, ClawRouterKey), d.router.value))
    else providers - {ClawRouterKey}
  }

  function ModelsAfter(models: Record, d: Managed): Record {
    Put(models, Providers, OpenAiAfter(Routed(Child(models, Providers), d)))
  }

  const CAPTURE_CONTENT: Record := map[
    Enabled := Bool(false), Name("inputMessages") := Bool(false), Name("outputMessages") := Bool(false),
    Name("toolInputs") := Bool(false), Name("toolOutputs") := Bool(false), Name("systemPrompt") := Bool(false),
    Name("toolDefinitions") := Bool(false)]

  function OtelRecord(o: ManagedOtel): Record {
    var base: Record := map[
      Enabled := Bool(o.enabled), Protocol := Text("http/protobuf"), ServiceName := Text(o.serviceName),
      Traces := Bool(o.traces), Metrics := Bool(o.metrics), Logs := Bool(false), CaptureContent := Obj(CAPTURE_CONTENT),
      SampleRate := Num(o.sampleRate), FlushIntervalMs := Num(o.flushIntervalMs)];
    if o.endpoint.Some? && o.endpoint.value != ""
    then
      base[Endpoint := Text(o.endpoint.value)][TracesEndpoint := Text(SignalPath(o.endpoint.value, "traces"))]
      [MetricsEndpoint := Text(SignalPath(o.endpoint.value, "metrics"))]
    else base
  }

  function DiagnosticsAfter(diagnostics: Record, d: Managed): Record {
    diagnostics[Enabled := Bool(d.otel.enabled)][OtelKey := Obj(OtelRecord(d.otel))]
  }

  /** How each section of the configuration is edited. */
  datatype Edits = Edits(
    agents: Record -> Record, channels: Record -> Record, logging: Record -> Record, plugins: Record -> Record,
    models: Record -> Record, diagnostics: Record -> Record)

  function EditsOf(d: Managed): Edits {
    Edits((r: Record) => AgentsAfter(r, d), (r: Record) => ChannelsAfter(r, d),
          (r: Record) => r[Level := Text(LevelText(d.logLevel))], (r: Record) => PluginsAfter(r, d),
          (r: Record) => ModelsAfter(r, d), (r: Record) => DiagnosticsAfter(r, d))
  }

  function EditSections(c: Record, e: Edits): Record {
    c[Agents := Obj(e.agents(Child(c, Agents)))][Channels := Obj(e.channels(Child(c, Channels)))]
    [Logging := Obj(e.logging(Child(c, Logging)))][Plugins := Obj(e.plugins(Child(c, Plugins)))]
    [Models := Obj(e.models(Child(c, Models)))][Diagnostics := Obj(e.diagnostics(Child(c, Diagnostics)))]
  }

  /** `applyManagedDesired`: each section is edited on its own. */
  function Apply(c: Record, d: Managed): Record { EditSections(c, EditsOf(d)) }

  // ---------- Reading ----------

  function TextOr(v: Option<Value>, default: string): string {
    if v.Some? && v.value.Text? then v.value.s else default
  }

  function NumOr(v: Option<Value>, default: string): string {
    if v.Some? && v.value.Num? then v.value.literal else default
  }

  function MaybeText(v: Option<Value>): Option<string> {
    if v.Some? && v.value.Text? then Some(v.value.s) else None
  }

  predicate IsTrue(v: Option<Value>) { v == Some(Bool(true)) }

  function ReadModel(agents: Record): string {
    var model := Get(Child(agents, Defaults), Model);
    if model.Some? && model.value.Text? then model.value.s else TextOr(Get(AsRecord(model), Primary), "")
  }

  function ReadFallbacks(agents: Record): seq<string> {
    TextList(Get(AsRecord(Get(Child(agents, Defaults), Model)), Fallbacks))
  }

  predicate Allows(plugins: Record, id: string) {
    Get(plugins, Allow).Some? && plugins[Allow].Arr? && Text(id) in plugins[Allow].items
  }

  function ReadRouter(plugins: Record, models: Record): Option<RouterBinding> {
    var provider := Child(Child(models, Providers), ClawRouterKey);
    var key := Child(provider, ApiKey);
    var headers := Child(provider, Headers);
    if && Allows(plugins, "clawrouter")
       && IsTrue(Get(Child(Child(plugins, Entries), ClawRouterKey), Enabled))
       && MaybeText(Get(provider, BaseUrl)).Some?
       && Get(key, Source) == Some(Text("env")) && Get(key, Provider) == Some(Text("default"))
       && Get(key, Id) == Some(Text("CLAWROUTER_API_KEY"))
       && (forall k :: k in headers ==> !IsDynamic(k))
       && (forall k :: k in headers && IsProject(k) ==> k == Name(PROJECT))
       && MaybeText(Get(headers, Name(PROJECT))).Some?
    then Some(RouterBinding(MaybeText(Get(provider, BaseUrl)).value, MaybeText(Get(headers, Name(PROJECT))).value))
    else None
  }

  function ReadLegacy(models: Record): Option<string> {
    MaybeText(Get(Child(Child(models, Providers), OpenAi), BaseUrl))
  }

  function ReadOtel(plugins: Record, diagnostics: Record): ManagedOtel {
    var otel := Child(diagnostics, OtelKey);
    var endpoint := MaybeText(Get(otel, Endpoint));
    ManagedOtel(
      && Allows(plugins, "diagnostics-otel")
      && IsTrue(Get(Child(Child(plugins, Entries), DiagnosticsOtel), Enabled))
      && IsTrue(Get(diagnostics, Enabled)) && IsTrue(Get(otel, Enabled)) && endpoint.Some?
      && Get(otel, TracesEndpoint) == Some(Text(SignalPath(endpoint.value, "traces")))
      && Get(otel, MetricsEndpoint) == Some(Text(SignalPath(endpoint.value, "metrics"))),
      endpoint, TextOr(Get(otel, ServiceName), ""), IsTrue(Get(otel, Traces)), IsTrue(Get(otel, Metrics)),
      IsTrue(Get(otel, Logs)), NumOr(Get(otel, SampleRate), "-1"), NumOr(Get(otel, FlushIntervalMs), "-1"))
  }

  function ReadParts(
    agents: Record, channels: Record, logging: Record, router: Option<RouterBinding>, legacy: Option<string>,
    otel: ManagedOtel): Managed
  {
    var slack := Child(channels, Slack);
    Managed(
      ReadModel(agents), ReadFallbacks(agents), router, legacy,
      Slack in channels && Get(slack, Enabled) != Some(Bool(false)), ReadDm(Get(slack, DmPolicyKey)),
      ReadGroup(Get(slack, GroupPolicyKey)), ReadLevel(Get(logging, Level)), otel)
  }

  /** `readManagedState` */
  function Read(c: Record): Managed {
    ReadParts(
      Child(c, Agents), Child(c, Channels), Child(c, Logging), ReadRouter(Child(c, Plugins), Child(c, Models)),
      ReadLegacy(Child(c, Models)), ReadOtel(Child(c, Plugins), Child(c, Diagnostics)))
  }

  // ---------- Lists ----------

  lemma {:induction false} TextsReadBack(xs: seq<string>)
    ensures OnlyTexts(Texts(xs)) == xs
  {
    if xs != [] {
      TextsReadBack(xs[1..]);
      assert Texts(xs)[1..] == Texts(xs[1..]);
    }
  }

  lemma {:induction false} TextsContain(xs: seq<string>, x: string)
    ensures Text(x) in Texts(xs) <==> x in xs
  {
    if xs != [] {
      TextsContain(xs[1..], x);
      assert Texts(xs)[1..] == Texts(xs[1..]);
    }
  }

  lemma {:induction false} UnmanagedIds(ids: seq<string>)
    ensures DistinctTexts(Unmanaged(ids))
    ensures forall id :: id in Unmanaged(ids) <==> id in ids && id !in MANAGED_IDS
  {
    if ids != [] {
      UnmanagedIds(ids[..|ids| - 1]);
      assert ids == ids[..|ids| - 1] + [ids[|ids| - 1]];
      assert forall id :: id in ids <==> id in ids[..|ids| - 1] || id == ids[|ids| - 1];
    }
  }

  lemma {:induction false} UnmanagedAppends(xs: seq<string>, ys: seq<string>)
    requires forall y :: y in ys ==> y in MANAGED_IDS
    ensures Unmanaged(xs + ys) == Unmanaged(xs)
  {
    if ys != [] {
      assert (xs + ys)[..|xs + ys| - 1] == xs + ys[..|ys| - 1];
      assert ys[|ys| - 1] in ys;
      UnmanagedAppends(xs, ys[..|ys| - 1]);
    } else {
      assert xs + ys == xs;
    }
  }

  lemma {:induction false} UnmanagedAgain(ids: seq<string>)
    requires DistinctTexts(ids) && forall id :: id in ids ==> id !in MANAGED_IDS
    ensures Unmanaged(ids) == ids
  {
    if ids != [] {
      var front := ids[..|ids| - 1];
      UnmanagedAgain(front);
      assert ids == front + [ids[|ids| - 1]];
      assert ids[|ids| - 1] in ids;
    }
  }

  lemma DistinctAppends(xs: seq<string>, ys: seq<string>)
    requires DistinctTexts(xs) && DistinctTexts(ys) && forall x :: x in xs ==> x !in ys
    ensures DistinctTexts(xs + ys)
  {
    assert forall i :: 0 <= i < |xs| ==> xs[i] in xs;
    assert forall j :: 0 <= j < |ys| ==> ys[j] in ys;
  }

  lemma ManagedIdsAreManaged(d: Managed)
    ensures DistinctTexts(ManagedIds(d)) && forall id :: id in ManagedIds(d) ==> id in MANAGED_IDS
  {
    assert |"crabhelm"| == 8 && |"slack"| == 5 && |"clawrouter"| == 10 && |"diagnostics-otel"| == 16;
  }

  lemma AllowAfterKeeps(ids: seq<string>, d: Managed)
    ensures Unmanaged(AllowAfter(ids, d)) == Unmanaged(ids)
    ensures DistinctTexts(AllowAfter(ids, d))
  {
    UnmanagedIds(ids);
    ManagedIdsAreManaged(d);
    UnmanagedAgain(Unmanaged(ids));
    UnmanagedAppends(Unmanaged(ids), ManagedIds(d));
    DistinctAppends(Unmanaged(ids), ManagedIds(d));
    assert AllowAfter(ids, d) == Unmanaged(ids) + ManagedIds(d);
  }

  lemma AllowedIds(plugins: Record, d: Managed)
    ensures Allows(PluginsAfter(plugins, d), "clawrouter") <==> d.router.Some?
    ensures Allows(PluginsAfter(plugins, d), "diagnostics-otel") <==> d.otel.enabled
  {
    var ids := TextList(Get(plugins, Allow));
    UnmanagedIds(ids);
    TextsContain(AllowAfter(ids, d), "clawrouter");
    TextsContain(AllowAfter(ids, d), "diagnostics-otel");
  }

  // ---------- Reading back what was applied ----------

  /** What `parseManagedDesired` accepts, as far as it matters here. */
  predicate Parsed(d: Managed) {
    d.legacyOpenAiBaseUrl.None? && !d.otel.logs && d.otel.endpoint != Some("") && (d.otel.enabled ==> d.otel.endpoint.Some?)
  }

  lemma AgentsReadBack(agents: Record, d: Managed)
    ensures ReadModel(AgentsAfter(agents, d)) == d.model && ReadFallbacks(AgentsAfter(agents, d)) == d.fallbackModels
  {
    TextsReadBack(d.fallbackModels);
  }

  lemma LevelReadsBack(l: LogLevel)
    ensures ReadLevel(Some(Text(LevelText(l)))) == l
  {
    assert "error"[0] == 'e' && "warn"[0] == 'w' && "info"[0] == 'i' && "debug"[0] == 'd';
  }

  lemma ProjectIsNotDynamic()
    ensures !IsDynamic(Name(PROJECT)) && IsProject(Name(PROJECT))
  {
    var l := Lower(PROJECT);
    assert |l| == 23 && l[13] == 'p';
    assert "x-clawrouter-session-id"[13] == 's' && "x-clawrouter-request-id"[13] == 'r';
  }

  lemma RoutedProvider(models: Record, d: Managed)
    ensures d.router.Some? ==>
              Child(Child(ModelsAfter(models, d), Providers), ClawRouterKey) ==
              RouterAfter(Child(Child(models, Providers), ClawRouterKey), d.router.value)
  {
  }

  lemma RouterFrom(plugins: Record, models: Record, provider: Record, router: RouterBinding)
    requires Allows(plugins, "clawrouter") && IsTrue(Get(Child(Child(plugins, Entries), ClawRouterKey), Enabled))
    requires Child(Child(models, Providers), ClawRouterKey) == RouterAfter(provider, router)
    ensures ReadRouter(plugins, models) == Some(router)
  {
    ProjectIsNotDynamic();
  }

  lemma RouterReadsBack(plugins: Record, models: Record, d: Managed)
    ensures ReadRouter(PluginsAfter(plugins, d), ModelsAfter(models, d)) == d.router
  {
    AllowedIds(plugins, d);
    if d.router.Some? {
      EntriesReadBack(plugins, d);
      RoutedProvider(models, d);
      RouterFrom(PluginsAfter(plugins, d), ModelsAfter(models, d), Child(Child(models, Providers), ClawRouterKey), d.router.value);
    }
  }

  lemma LegacyIsGone(models: Record, d: Managed)
    ensures ReadLegacy(ModelsAfter(models, d)).None?
  {
  }

  predicate Present(endpoint: Option<string>) { endpoint.Some? && endpoint.value != "" }

  /** The fields of the written `otel` record. */
  lemma OtelFields(o: ManagedOtel)
    ensures var r := OtelRecord(o);
            && Get(r, Enabled) == Some(Bool(o.enabled)) && Get(r, ServiceName) == Some(Text(o.serviceName))
            && Get(r, Traces) == Some(Bool(o.traces)) && Get(r, Metrics) == Some(Bool(o.metrics))
            && Get(r, Logs) == Some(Bool(false)) && Get(r, SampleRate) == Some(Num(o.sampleRate))
            && Get(r, FlushIntervalMs) == Some(Num(o.flushIntervalMs))
            && (Present(o.endpoint) ==>
                  && Get(r, Endpoint) == Some(Text(o.endpoint.value))
                  && Get(r, TracesEndpoint) == Some(Text(SignalPath(o.endpoint.value, "traces")))
                  && Get(r, MetricsEndpoint) == Some(Text(SignalPath(o.endpoint.value, "metrics"))))
            && (!Present(o.endpoint) ==> Get(r, Endpoint).None?)
  {
  }

  lemma EntriesReadBack(plugins: Record, d: Managed)
    ensures Get(Child(Child(PluginsAfter(plugins, d), Entries), DiagnosticsOtel), Enabled) == Some(Bool(d.otel.enabled))
    ensures Get(Child(Child(PluginsAfter(plugins, d), Entries), ClawRouterKey), Enabled) == Some(Bool(d.router.Some?))
  {
  }

  lemma OtelReadsBack(plugins: Record, diagnostics: Record, d: Managed)
    ensures ReadOtel(PluginsAfter(plugins, d), DiagnosticsAfter(diagnostics, d)) ==
            d.otel.(logs := false, endpoint := if Present(d.otel.endpoint) then d.otel.endpoint else None,
            enabled := d.otel.enabled && Present(d.otel.endpoint))
  {
    AllowedIds(plugins, d);
    EntriesReadBack(plugins, d);
    OtelFields(d.otel);
    OtelFrom(PluginsAfter(plugins, d), DiagnosticsAfter(diagnostics, d), d.otel);
  }

  lemma OtelFrom(plugins: Record, diagnostics: Record, o: ManagedOtel)
    requires Allows(plugins, "diagnostics-otel") <==> o.enabled
    requires Get(Child(Child(plugins, Entries), DiagnosticsOtel), Enabled) == Some(Bool(o.enabled))
    requires Get(diagnostics, Enabled) == Some(Bool(o.enabled)) && Child(diagnostics, OtelKey) == OtelRecord(o)
    ensures ReadOtel(plugins, diagnostics) ==
            o.(logs := false, endpoint := if Present(o.endpoint) then o.endpoint else None,
            enabled := o.enabled && Present(o.endpoint))
  {
    OtelFields(o);
  }

  /** Read after apply gives back the desired value, for every prior configuration, exactly for the values parsing lets through. */
  lemma RoundTripIff(c: Record, d: Managed)
    ensures Read(Apply(c, d)) == d <==> Parsed(d)
  {
    AgentsReadBack(Child(c, Agents), d);
    LevelReadsBack(d.logLevel);
    RouterReadsBack(Child(c, Plugins), Child(c, Models), d);
    LegacyIsGone(Child(c, Models), d);
    OtelReadsBack(Child(c, Plugins), Child(c, Diagnostics), d);
    EditedSections(c, EditsOf(d));
    SlackReadsBack(Child(c, Channels), d);
  }

  lemma SlackReadsBack(channels: Record, d: Managed)
    ensures var after := ChannelsAfter(channels, d);
            var slack := Child(after, Slack);
            && Slack in after && (Get(slack, Enabled) != Some(Bool(false)) <==> d.slackEnabled)
            && ReadDm(Get(slack, DmPolicyKey)) == d.dmPolicy && ReadGroup(Get(slack, GroupPolicyKey)) == d.groupPolicy
  {
  }

  lemma EditedSections(c: Record, e: Edits)
    ensures var after := EditSections(c, e);
            && Child(after, Agents) == e.agents(Child(c, Agents))
            && Child(after, Channels) == e.channels(Child(c, Channels))
            && Child(after, Logging) == e.logging(Child(c, Logging))
            && Child(after, Plugins) == e.plugins(Child(c, Plugins))
            && Child(after, Models) == e.models(Child(c, Models))
            && Child(after, Diagnostics) == e.diagnostics(Child(c, Diagnostics))
  {
  }

  // ---------- Applying twice ----------

  lemma AllowAgain(ids: seq<string>, d: Managed)
    ensures AllowAfter(AllowAfter(ids, d), d) == AllowAfter(ids, d)
  {
    AllowAfterKeeps(ids, d);
  }

  lemma AgentsAgain(agents: Record, d: Managed)
    ensures AgentsAfter(AgentsAfter(agents, d), d) == AgentsAfter(agents, d)
  {
    var defaults := Child(AgentsAfter(agents, d), Defaults);
    assert defaults[Model := Obj(map[Primary := Text(d.model), Fallbacks := Arr(Texts(d.fallbackModels))])] == defaults;
  }

  lemma ChannelsAgain(channels: Record, d: Managed)
    ensures ChannelsAfter(ChannelsAfter(channels, d), d) == ChannelsAfter(channels, d)
  {
    var slack := Child(ChannelsAfter(channels, d), Slack);
    assert slack == slack[Enabled := Bool(d.slackEnabled)][DmPolicyKey := Text(DmText(d.dmPolicy))]
                    [GroupPolicyKey := Text(GroupText(d.groupPolicy))];
  }

  lemma EntriesAgain(entries: Record, a: bool, b: bool)
    ensures EntriesAfter(EntriesAfter(entries, a, b), a, b) == EntriesAfter(entries, a, b)
  {
    var once := EntriesAfter(entries, a, b);
    assert Child(once, ClawRouterKey)[Enabled := Bool(a)] == Child(once, ClawRouterKey);
    assert Child(once, DiagnosticsOtel)[Enabled := Bool(b)] == Child(once, DiagnosticsOtel);
    assert SetEntry(once, ClawRouterKey, a) == once;
  }

  lemma PluginsAgain(plugins: Record, d: Managed)
    ensures PluginsAfter(PluginsAfter(plugins, d), d) == PluginsAfter(plugins, d)
  {
    var once := PluginsAfter(plugins, d);
    var ids := TextList(Get(plugins, Allow));
    TextsReadBack(AllowAfter(ids, d));
    AllowAgain(ids, d);
    assert TextList(Get(once, Allow)) == AllowAfter(ids, d);
    EntriesAgain(Child(plugins, Entries), d.router.Some?, d.otel.enabled);
    assert once[Allow := Arr(Texts(AllowAfter(ids, d)))] == once;
  }

  lemma RouterAgain(provider: Record, router: RouterBinding)
    ensures RouterAfter(RouterAfter(provider, router), router) == RouterAfter(provider, router)
  {
    ProjectIsNotDynamic();
    var once := RouterAfter(provider, router);
    var headers := Child(once, Headers);
    assert CleanHeaders(headers)[Name(PROJECT) := Text(router.projectId)] == headers;
  }

  lemma OpenAiAgain(providers: Record)
    ensures OpenAiAfter(OpenAiAfter(providers)) == OpenAiAfter(providers)
    ensures Get(OpenAiAfter(providers), ClawRouterKey) == Get(providers, ClawRouterKey)
  {
    if OpenAi in providers {
      var openai := Child(providers, OpenAi) - {BaseUrl};
      assert openai - {BaseUrl} == openai;
    }
  }

  lemma ModelsAgain(models: Record, d: Managed)
    ensures ModelsAfter(ModelsAfter(models, d), d) == ModelsAfter(models, d)
  {
    var providers := Child(models, Providers);
    OpenAiAgain(Routed(providers, d));
    var once := OpenAiAfter(Routed(providers, d));
    assert Child(ModelsAfter(models, d), Providers) == once;
    if d.router.Some? {
      RouterAgain(Child(providers, ClawRouterKey), d.router.value);
      assert Child(once, ClawRouterKey) == RouterAfter(Child(providers, ClawRouterKey), d.router.value);
      assert Put(once, ClawRouterKey, Child(once, ClawRouterKey)) == once;
    } else {
      assert once - {ClawRouterKey} == once;
    }
  }

  /** Each edit leaves what it has made alone. */
  predicate Stable(e: Edits, c: Record) {
    && e.agents(e.agents(Child(c, Agents))) == e.agents(Child(c, Agents))
    && e.channels(e.channels(Child(c, Channels))) == e.channels(Child(c, Channels))
    && e.logging(e.logging(Child(c, Logging))) == e.logging(Child(c, Logging))
    && e.plugins(e.plugins(Child(c, Plugins))) == e.plugins(Child(c, Plugins))
    && e.models(e.models(Child(c, Models))) == e.models(Child(c, Models))
    && e.diagnostics(e.diagnostics(Child(c, Diagnostics))) == e.diagnostics(Child(c, Diagnostics))
  }

  lemma EditAgain(c: Record, e: Edits)
    requires Stable(e, c)
    ensures EditSections(EditSections(c, e), e) == EditSections(c, e)
  {
    EditedSections(c, e);
  }

  lemma DiagnosticsAgain(diagnostics: Record, d: Managed)
    ensures DiagnosticsAfter(DiagnosticsAfter(diagnostics, d), d) == DiagnosticsAfter(diagnostics, d)
  {
  }

  lemma EditsAreStable(c: Record, d: Managed)
    ensures Stable(EditsOf(d), c)
  {
    AgentsAgain(Child(c, Agents), d);
    ChannelsAgain(Child(c, Channels), d);
    PluginsAgain(Child(c, Plugins), d);
    ModelsAgain(Child(c, Models), d);
    DiagnosticsAgain(Child(c, Diagnostics), d);
  }

  /** Applying the same desired value twice equals applying it once. */
  lemma ApplyAgain(c: Record, d: Managed)
    ensures Apply(Apply(c, d), d) == Apply(c, d)
  {
    EditsAreStable(c, d);
    EditAgain(c, EditsOf(d));
  }

  // ---------- What applying leaves alone ----------

  /** The value at a path of keys. */
  function At(r: Record, path: seq<Key>): Option<Value>
    requires path != []
    decreases |path|
  {
    if |path| == 1 then Get(r, path[0]) else At(Child(r, path[0]), path[1..])
  }

  // The path leads to the given keys, or they lead to it.
  predicate Meets1(p: seq<Key>, a: Key) { p == [] || p[0] == a }
  predicate Meets2(p: seq<Key>, a: Key, b: Key) { p == [] || (p[0] == a && Meets1(p[1..], b)) }
  predicate Meets3(p: seq<Key>, a: Key, b: Key, c: Key) { p == [] || (p[0] == a && Meets2(p[1..], b, c)) }

  predicate IsAttribution(k: Key) { IsDynamic(k) || IsProject(k) }

  /** Of the router's own provider: the address, the key reference and the attribution headers. */
  predicate MeetsRouter(p: seq<Key>) {
    || p == [] || p[0] == BaseUrl || p[0] == ApiKey
    || (p[0] == Headers && (|p| == 1 || IsAttribution(p[1])))
  }

  /** Without a router its provider goes altogether. */
  predicate MeetsProvider(p: seq<Key>, d: Managed) {
    p == [] || (p[0] == ClawRouterKey && (d.router.None? || MeetsRouter(p[1..])))
  }

  predicate ManagedBelow(section: Key, p: seq<Key>, d: Managed) {
    match section
    case Agents => Meets2(p, Defaults, Model)
    case Channels => Meets2(p, Slack, Enabled) || Meets2(p, Slack, DmPolicyKey) || Meets2(p, Slack, GroupPolicyKey)
    case Logging => Meets1(p, Level)
    case Plugins =>
      Meets1(p, Allow) || Meets3(p, Entries, ClawRouterKey, Enabled) || Meets3(p, Entries, DiagnosticsOtel, Enabled)
    case Models =>
      || (Meets1(p, Providers) && MeetsProvider(if p == [] then [] else p[1..], d))
      || Meets3(p, Providers, OpenAi, BaseUrl)
    case Diagnostics => Meets1(p, Enabled) || Meets1(p, OtelKey)
    case _ => false
  }

  /** The paths that lead to something Crabhelm manages, or lie in it. */
  predicate IsManaged(p: seq<Key>, d: Managed) { p == [] || ManagedBelow(p[0], p[1..], d) }

  lemma AtOther(r: Record, k: Key, v: Value, p: seq<Key>)
    requires p != [] && p[0] != k
    ensures At(r[k := v], p) == At(r, p)
  {
  }

  /** An edit of one field of one record, along a path. */
  lemma AtField(r: Record, k: Key, field: Key, v: Value, p: seq<Key>)
    requires p != [] && !Meets2(p, k, field)
    ensures At(Put(r, k, Child(r, k)[field := v]), p) == At(r, p)
  {
    if p[0] == k {
      assert !Meets1(p[1..], field);
      AtOther(Child(r, k), field, v, p[1..]);
    }
  }

  lemma AgentsKept(agents: Record, d: Managed, p: seq<Key>)
    requires p != [] && !Meets2(p, Defaults, Model)
    ensures At(AgentsAfter(agents, d), p) == At(agents, p)
  {
    AtField(agents, Defaults, Model,
            Obj(map[Primary := Text(d.model), Fallbacks := Arr(Texts(d.fallbackModels))]), p);
  }

  lemma ChannelsKept(channels: Record, d: Managed, p: seq<Key>)
    requires p != [] && !Meets2(p, Slack, Enabled) && !Meets2(p, Slack, DmPolicyKey)
    requires !Meets2(p, Slack, GroupPolicyKey)
    ensures At(ChannelsAfter(channels, d), p) == At(channels, p)
  {
    if p[0] == Slack {
      assert !Meets1(p[1..], Enabled) && !Meets1(p[1..], DmPolicyKey) && !Meets1(p[1..], GroupPolicyKey);
      var slack := Child(channels, Slack);
      var one := slack[Enabled := Bool(d.slackEnabled)];
      AtOther(slack, Enabled, Bool(d.slackEnabled), p[1..]);
      AtOther(one, DmPolicyKey, Text(DmText(d.dmPolicy)), p[1..]);
      AtOther(one[DmPolicyKey := Text(DmText(d.dmPolicy))], GroupPolicyKey, Text(GroupText(d.groupPolicy)), p[1..]);
    }
  }

  lemma EntriesKept(entries: Record, routed: bool, observed: bool, p: seq<Key>)
    requires p != [] && !Meets2(p, ClawRouterKey, Enabled) && !Meets2(p, DiagnosticsOtel, Enabled)
    ensures At(EntriesAfter(entries, routed, observed), p) == At(entries, p)
  {
    AtField(entries, ClawRouterKey, Enabled, Bool(routed), p);
    AtField(SetEntry(entries, ClawRouterKey, routed), DiagnosticsOtel, Enabled, Bool(observed), p);
  }

  lemma TwoFieldsKept(plugins: Record, allow: Value, entries: Record, p: seq<Key>)
    requires p != [] && p[0] != Allow
    requires p[0] == Entries ==> |p| > 1 && At(entries, p[1..]) == At(Child(plugins, Entries), p[1..])
    ensures At(Put(plugins[Allow := allow], Entries, entries), p) == At(plugins, p)
  {
  }

  lemma PluginsKept(plugins: Record, d: Managed, p: seq<Key>)
    requires p != [] && !Meets1(p, Allow) && !Meets3(p, Entries, ClawRouterKey, Enabled)
    requires !Meets3(p, Entries, DiagnosticsOtel, Enabled)
    ensures At(PluginsAfter(plugins, d), p) == At(plugins, p)
  {
    if p[0] == Entries {
      EntriesKept(Child(plugins, Entries), d.router.Some?, d.otel.enabled, p[1..]);
    }
    TwoFieldsKept(plugins, Arr(Texts(AllowAfter(TextList(Get(plugins, Allow)), d))),
                  EntriesAfter(Child(plugins, Entries), d.router.Some?, d.otel.enabled), p);
  }

  lemma OpenAiKept(providers: Record, p: seq<Key>)
    requires p != [] && !Meets2(p, OpenAi, BaseUrl)
    ensures At(OpenAiAfter(providers), p) == At(providers, p)
  {
    if p[0] == OpenAi {
      assert !Meets1(p[1..], BaseUrl);
      var openai := Child(providers, OpenAi);
      assert Get(openai - {BaseUrl}, p[1]) == Get(openai, p[1]);
    }
  }

  lemma RouterKept(provider: Record, router: RouterBinding, p: seq<Key>)
    requires !MeetsRouter(p)
    ensures At(RouterAfter(provider, router), p) == At(provider, p)
  {
    if p[0] == Headers {
      ProjectIsNotDynamic();
      var headers := Child(provider, Headers);
      assert Get(CleanHeaders(headers)[Name(PROJECT) := Text(router.projectId)], p[1]) == Get(headers, p[1]);
    }
  }

  lemma RoutedKept(providers: Record, d: Managed, p: seq<Key>)
    requires !MeetsProvider(p, d)
    ensures At(Routed(providers, d), p) == At(providers, p)
  {
    if p[0] == ClawRouterKey {
      RouterKept(Child(providers, ClawRouterKey), d.router.value, p[1..]);
    } else {
      assert Get(Routed(providers, d), p[0]) == Get(providers, p[0]);
    }
  }

  lemma ModelsKept(models: Record, d: Managed, p: seq<Key>)
    requires p != [] && !Meets3(p, Providers, OpenAi, BaseUrl)
    requires !(Meets1(p, Providers) && MeetsProvider(p[1..], d))
    ensures At(ModelsAfter(models, d), p) == At(models, p)
  {
    if p[0] == Providers {
      assert |p| > 1 && !Meets2(p[1..], OpenAi, BaseUrl);
      var providers := Child(models, Providers);
      OpenAiKept(Routed(providers, d), p[1..]);
      RoutedKept(providers, d, p[1..]);
    }
  }

  lemma DiagnosticsKept(diagnostics: Record, d: Managed, p: seq<Key>)
    requires p != [] && !Meets1(p, Enabled) && !Meets1(p, OtelKey)
    ensures At(DiagnosticsAfter(diagnostics, d), p) == At(diagnostics, p)
  {
  }

  const SECTIONS: set<Key> := {Agents, Channels, Logging, Plugins, Models, Diagnostics}

  function SectionEdit(e: Edits, k: Key): Record -> Record
    requires k in SECTIONS
  {
    match k
    case Agents => e.agents
    case Channels => e.channels
    case Logging => e.logging
    case Plugins => e.plugins
    case Models => e.models
    case Diagnostics => e.diagnostics
  }

  /** A path into a section is a path of the edited section; other paths are untouched. */
  lemma AtSection(c: Record, e: Edits, p: seq<Key>)
    requires p != []
    ensures p[0] !in SECTIONS ==> At(EditSections(c, e), p) == At(c, p)
    ensures |p| > 1 && p[0] in SECTIONS ==>
              At(EditSections(c, e), p) == At(SectionEdit(e, p[0])(Child(c, p[0])), p[1..])
  {
    EditedSections(c, e);
  }

  lemma SectionKept(c: Record, d: Managed, p: seq<Key>)
    requires p != [] && p[0] in SECTIONS && !IsManaged(p, d)
    ensures |p| > 1 && At(SectionEdit(EditsOf(d), p[0])(Child(c, p[0])), p[1..]) == At(Child(c, p[0]), p[1..])
  {
    match p[0]
    case Agents => AgentsKept(Child(c, Agents), d, p[1..]);
    case Channels => ChannelsKept(Child(c, Channels), d, p[1..]);
    case Logging => AtOther(Child(c, Logging), Level, Text(LevelText(d.logLevel)), p[1..]);
    case Plugins => PluginsKept(Child(c, Plugins), d, p[1..]);
    case Models => ModelsKept(Child(c, Models), d, p[1..]);
    case Diagnostics => DiagnosticsKept(Child(c, Diagnostics), d, p[1..]);
  }

  lemma EditKeeps(c: Record, e: Edits, p: seq<Key>)
    requires p != []
    requires p[0] in SECTIONS ==>
               |p| > 1 && At(SectionEdit(e, p[0])(Child(c, p[0])), p[1..]) == At(Child(c, p[0]), p[1..])
    ensures At(EditSections(c, e), p) == At(c, p)
  {
    AtSection(c, e, p);
  }

  /** Every path that no managed path leads to, and that leads to none, keeps its value or its absence. */
  lemma UnmanagedIsKept(c: Record, d: Managed, p: seq<Key>)
    requires p != [] && !IsManaged(p, d)
    ensures At(Apply(c, d), p) == At(c, p)
  {
    if p[0] in SECTIONS {
      SectionKept(c, d, p);
    }
    EditKeeps(c, EditsOf(d), p);
  }

  const PROVIDER_PATH := [Models, Providers, ClawRouterKey]

  function RouterProvider(c: Record): Record { Child(Child(Child(c, Models), Providers), ClawRouterKey) }

  lemma AtBelow(r: Record, k: Key, p: seq<Key>)
    requires p != []
    ensures At(r, [k] + p) == At(Child(r, k), p)
  {
    assert ([k] + p)[1..] == p;
  }

  lemma AtProvider(c: Record, p: seq<Key>)
    requires p != []
    ensures At(c, PROVIDER_PATH + p) == At(RouterProvider(c), p)
  {
    AtBelow(Child(Child(c, Models), Providers), ClawRouterKey, p);
    AtBelow(Child(c, Models), Providers, [ClawRouterKey] + p);
    AtBelow(c, Models, [Providers] + ([ClawRouterKey] + p));
    assert PROVIDER_PATH + p == [Models] + ([Providers] + ([ClawRouterKey] + p));
  }

  lemma AppliedProvider(c: Record, d: Managed)
    requires d.router.Some?
    ensures RouterProvider(Apply(c, d)) == RouterAfter(RouterProvider(c), d.router.value)
  {
    EditedSections(c, EditsOf(d));
    RoutedProvider(Child(c, Models), d);
  }

  /**
   So a routed application keeps every other field of the router's provider and every unrelated header, however deep;
   of the attribution headers only the project's is there afterwards.
   */
  lemma HeadersAreKept(c: Record, d: Managed, p: seq<Key>)
    requires d.router.Some? && p != []
    ensures p[0] !in {BaseUrl, ApiKey, Headers} ==> At(Apply(c, d), PROVIDER_PATH + p) == At(c, PROVIDER_PATH + p)
    ensures |p| > 1 && p[0] == Headers && !IsAttribution(p[1]) ==>
              At(Apply(c, d), PROVIDER_PATH + p) == At(c, PROVIDER_PATH + p)
    ensures |p| == 2 && p[0] == Headers && IsAttribution(p[1]) ==>
              At(Apply(c, d), PROVIDER_PATH + p) ==
              if p[1] == Name(PROJECT) then Some(Text(d.router.value.projectId)) else None
  {
    AtProvider(c, p);
    AtProvider(Apply(c, d), p);
    AppliedProvider(c, d);
    if !MeetsRouter(p) {
      RouterKept(RouterProvider(c), d.router.value, p);
    } else if |p| == 2 && p[0] == Headers {
      AttributionIsReplaced(RouterProvider(c), d.router.value, p[1]);
      assert p == [Headers, p[1]];
    }
  }

  lemma AttributionIsReplaced(provider: Record, router: RouterBinding, k: Key)
    requires IsAttribution(k)
    ensures Get(Child(RouterAfter(provider, router), Headers), k) ==
            if k == Name(PROJECT) then Some(Text(router.projectId)) else None
  {
    ProjectIsNotDynamic();
  }

  /**
   The allow list after an application: the unmanaged ids that were there, in first-occurrence order, and the ids the
   desired value calls for; none twice.
   */
  lemma AllowKeepsUnmanaged(c: Record, d: Managed)
    ensures var prior, after := TextList(At(c, [Plugins, Allow])), TextList(At(Apply(c, d), [Plugins, Allow]));
            && Unmanaged(after) == Unmanaged(prior) && DistinctTexts(after)
            && forall id :: id in after <==> (id in prior && id !in MANAGED_IDS) || id in ManagedIds(d)
  {
    EditedSections(c, EditsOf(d));
    var prior := TextList(Get(Child(c, Plugins), Allow));
    TextsReadBack(AllowAfter(prior, d));
    AllowAfterKeeps(prior, d);
    UnmanagedIds(prior);
  }
}
