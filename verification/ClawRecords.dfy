/**
 Claw records and their normal form (src/types.ts, src/domain.ts).  Fields that normalisation only validates are
 carried as opaque settings; what normalisation computes (trimmed texts, distinct fallback models, the provider of
 a model, the rebuilt ClawRouter binding) is spelled out.
 */
module ClawRecords {
  import opened Common

  datatype Router =
    | Direct
    | ClawRouter(baseUrl: string, tenantId: string, credentialId: string, projectId: string,
                 allowedProviders: seq<string>, modelProviders: map<string, string>, providers: seq<string>)

  datatype Inference = Inference(
    provider: string, model: string, fallbackModels: seq<string>, authRef: Option<string>,
    monthlyBudgetUsd: Option<real>, router: Router)

  datatype DmPolicy = Pairing | DmAllowlist | DmDisabled
  datatype GroupPolicy = GroupAllowlist | GroupDisabled
  datatype Access = Access(dmPolicy: DmPolicy, groupPolicy: GroupPolicy)
  datatype LogLevel = Error | Warn | Info | Debug

  /** `sampleRate` and `flushIntervalMs` are kept as JSON number literals. */
  datatype Otel = Otel(
    enabled: bool, endpoint: Option<string>, serviceName: string, traces: bool, metrics: bool,
    sampleRate: string, flushIntervalMs: string)

  datatype Appliance = Appliance(manifest: string, archive: string, node: string)

  /** Owner, placement, Slack details and retention: validated on input, then only carried along. */
  datatype Settings = Settings(owner: string, placement: string, slackDetails: string, retentionDays: nat)

  datatype Desired = Desired(
    generation: nat, name: string, slug: string, templateId: string, templateVersion: nat,
    inference: Inference, slackEnabled: bool, access: Access, logLevel: LogLevel, otel: Otel,
    appliance: Option<Appliance>, settings: Settings, enabled: bool, credentialsGeneration: nat)

  /** The fields that `childPolicyHash` digests; a collision-free digest is identified with what it digests. */
  datatype PolicyKey = PolicyKey(
    model: string, fallbackModels: seq<string>, router: Router, slackEnabled: bool, access: Access,
    logLevel: LogLevel, otel: Otel, appliance: Option<Appliance>, credentialsGeneration: nat)

  function PolicyHash(d: Desired): PolicyKey {
    PolicyKey(d.inference.model, d.inference.fallbackModels, d.inference.router, d.slackEnabled, d.access, d.logLevel,
              d.otel, d.appliance, d.credentialsGeneration)
  }

  datatype Phase = Requested | Provisioning | Enrolling | Ready | Disabled | Deleting | Deleted | Attention
  datatype Health = Unknown | Healthy | Degraded | Offline
  datatype Stage = DisableStage | DrainStage | ReleaseStage | ConfirmStage | RevokeStage
  datatype Deletion = Deletion(stage: Stage, requestedAt: Time, lastAttemptAt: Option<Time>, drainedAt: Option<Time>)
  datatype LinkStatus = LinkPending | LinkPaired | LinkOffline | LinkRevoked

  /** The model part of the operational probes. */
  datatype Probes = Probes(liveInference: bool, configuredModel: string, resolvedModel: Option<string>)

  datatype Route = Route(model: string, routerHealthy: bool, catalogReady: bool, routeVerified: bool)

  datatype Observed = Observed(
    generation: nat, phase: Phase, health: Health, lifecycle: Option<nat>, link: LinkStatus,
    configHash: Option<PolicyKey>, probes: Option<Probes>, lastSeenAt: Option<Time>, inference: Option<Route>,
    deletion: Option<Deletion>, userAccess: Option<nat>)

  type ClawId = string

  /** What `randomUUID` guarantees about an id, as far as it matters here. */
  predicate UuidText(s: string) {
    |s| == 36 && forall c :: c in s ==> '0' <= c <= '9' || 'a' <= c <= 'f' || c == '-'
  }

  datatype ClawRecord = ClawRecord(id: ClawId, revision: nat, desired: Desired, observed: Observed)

  const FIRST_OBSERVED :=
    Observed(0, Requested, Unknown, None, LinkPending, None, None, None, None, None, None)

  const MAX_ROTATIONS: nat := 1_000_000

  const MAX_PROVIDER: nat := 80

  // ---------- Texts ----------

  predicate Blank(c: char) { c == ' ' || c == '\t' || c == '\n' || c == '\r' }

  function TrimStart(s: string): string { if s != [] && Blank(s[0]) then TrimStart(s[1..]) else s }

  function TrimEnd(s: string): string { if s != [] && Blank(s[|s| - 1]) then TrimEnd(s[..|s| - 1]) else s }

  function Trim(s: string): string { TrimEnd(TrimStart(s)) }

  predicate Trimmed(s: string) { s != [] ==> !Blank(s[0]) && !Blank(s[|s| - 1]) }

  lemma {:induction false} TrimEndKeepsStart(s: string)
    requires s == [] || !Blank(s[0])
    ensures TrimEnd(s) == [] || !Blank(TrimEnd(s)[0])
    ensures TrimEnd(s) == [] || !Blank(TrimEnd(s)[|TrimEnd(s)| - 1])
  {
    if s != [] && Blank(s[|s| - 1]) {
      TrimEndKeepsStart(s[..|s| - 1]);
    }
  }

  lemma {:induction false} TrimStartLeadsWithText(s: string)
    ensures TrimStart(s) == [] || !Blank(TrimStart(s)[0])
  {
    if s != [] && Blank(s[0]) {
      TrimStartLeadsWithText(s[1..]);
    }
  }

  lemma TrimTrims(s: string)
    ensures Trimmed(Trim(s))
    ensures Trimmed(s) ==> Trim(s) == s
  {
    TrimStartLeadsWithText(s);
    TrimEndKeepsStart(TrimStart(s));
  }

  function RequireText(s: string, max: nat): Result<string, string> {
    var clean := Trim(s);
    if clean == "" || |clean| > max then Failure("text is required") else Success(clean)
  }

  predicate CleanText(s: string, max: nat) { Trimmed(s) && s != "" && |s| <= max }

  // ---------- Models and the inference policy ----------

  /** What the model patterns guarantee about a model reference. */
  predicate ModelText(s: string) {
    '/' in s && s[0] != '/' && ',' !in s && forall c :: c in s ==> !Blank(c)
  }

  predicate StartsWith(s: string, prefix: string) { |prefix| <= |s| && s[..|prefix|] == prefix }

  const ROUTED_PREFIX := "clawrouter/"

  predicate ValidModel(s: string, routed: bool) { ModelText(s) && (routed <==> StartsWith(s, ROUTED_PREFIX)) }

  /** `model.slice(0, model.indexOf("/"))` */
  function ProviderOf(model: string): string {
    if model == "" || model[0] == '/' then "" else [model[0]] + ProviderOf(model[1..])
  }

  /** `[...new Set(values)]` keeps first occurrences. */
  function Dedupe(xs: seq<string>): seq<string> {
    if xs == [] then []
    else
      var front := Dedupe(xs[..|xs| - 1]);
      if xs[|xs| - 1] in front then front else front + [xs[|xs| - 1]]
  }

  predicate DistinctTexts(xs: seq<string>) { forall i, j :: 0 <= i < j < |xs| ==> xs[i] != xs[j] }

  lemma {:induction false} DedupeIsDistinct(xs: seq<string>)
    ensures DistinctTexts(Dedupe(xs))
    ensures forall x :: x in Dedupe(xs) <==> x in xs
    ensures DistinctTexts(xs) ==> Dedupe(xs) == xs
  {
    if xs != [] {
      DedupeIsDistinct(xs[..|xs| - 1]);
      assert xs == xs[..|xs| - 1] + [xs[|xs| - 1]];
      assert forall x :: x in xs <==> x in xs[..|xs| - 1] || x == xs[|xs| - 1];
    }
  }

  datatype Fleet = Fleet(
    baseUrl: string, tenantId: string, allowedProviders: seq<string>, modelProviders: map<string, string>,
    defaultModel: string)

  datatype InferenceInput = InferenceInput(
    provider: Option<string>, model: Option<string>, fallbackModels: seq<string>, authRef: Option<string>,
    monthlyBudgetUsd: Option<real>)

  function Less(a: string, b: string): bool {
    if b == "" then false else if a == "" then true else a[0] < b[0] || (a[0] == b[0] && Less(a[1..], b[1..]))
  }

  /** Insertion into a sorted list without duplicates: `[...new Set(values)].sort()`. */
  function InsertText(xs: seq<string>, x: string): seq<string> {
    if xs == [] then [x]
    else if xs[0] == x then xs
    else if Less(x, xs[0]) then [x] + xs
    else [xs[0]] + InsertText(xs[1..], x)
  }

  function ProvidersOf(models: seq<string>, modelProviders: map<string, string>): seq<string> {
    if models == [] then []
    else
      InsertText(
        ProvidersOf(models[1..], modelProviders),
        if models[0] in modelProviders then modelProviders[models[0]] else "")
  }

  function WithoutDashes(s: string): string {
    if s == "" then "" else (if s[0] == '-' then "" else [s[0]]) + WithoutDashes(s[1..])
  }

  function CredentialId(claw: ClawId): string { "crabhelm_" + WithoutDashes(claw) }

  function RouterAuthRef(claw: ClawId): string { "clawrouter:" + CredentialId(claw) }

  /** A provider that is named must be the model's own. */
  function CheckProvider(provider: Option<string>, model: string): Result<string, string> {
    if provider.None? then Success(ProviderOf(model))
    else
      var clean := RequireText(provider.value, MAX_PROVIDER);
      if clean.Success? && clean.value != ProviderOf(model) then Failure("inference provider does not match model")
      else clean
  }

  predicate ValidBudget(budget: Option<real>) { budget.Some? ==> 0.0 <= budget.value <= 1_000_000.0 }

  /** An empty reference is none. */
  function NormalizeAuthRef(authRef: Option<string>): Result<Option<string>, string> {
    if authRef.None? || authRef.value == "" then Success(None)
    else
      var clean := RequireText(authRef.value, 240);
      if clean.Failure? then Failure(clean.error) else Success(Some(clean.value))
  }

  /** `normalizeModels` */
  function NormalizeInference(input: InferenceInput, claw: ClawId, fleet: Option<Fleet>): Result<Inference, string> {
    var routed := fleet.Some?;
    var raw := if input.model.Some? then input.model.value
               else if routed then fleet.value.defaultModel else "openai/gpt-5.5";
    var model := RequireText(raw, 220);
    if model.Failure? then Failure(model.error) else
    var fallbacks := Dedupe(input.fallbackModels);
    var models := [model.value] + fallbacks;
    if !ValidModel(model.value, routed) || exists m :: m in fallbacks && !ValidModel(m, routed)
    then Failure("model must use provider/model form")
    else
    var provider := CheckProvider(input.provider, model.value);
    var authRef := NormalizeAuthRef(input.authRef);
    if provider.Failure? then Failure(provider.error)
    else if !ValidBudget(input.monthlyBudgetUsd) then Failure("monthly budget must be between 0 and 1000000 USD")
    else if authRef.Failure? then Failure(authRef.error)
    else if !routed
    then Success(Inference(provider.value, model.value, fallbacks, authRef.value, input.monthlyBudgetUsd, Direct))
    else
      var f := fleet.value;
      var providers := ProvidersOf(models, f.modelProviders);
      if "" in providers then Failure("every ClawRouter model requires an explicit fleet model-to-provider mapping")
      else if exists p :: p in providers && p !in f.allowedProviders
      then Failure("inference model provider is outside the fleet ClawRouter allowlist")
      else
        var id := CredentialId(claw);
        Success(Inference(
          provider.value, model.value, fallbacks, Some(RouterAuthRef(claw)), input.monthlyBudgetUsd,
          ClawRouter(f.baseUrl, f.tenantId, id, claw, f.allowedProviders, f.modelProviders, providers)))
  }

  // ---------- Creating and updating records ----------

  datatype Input = Input(
    name: string, slug: string, templateId: string, templateVersion: nat, inference: InferenceInput,
    slackEnabled: bool, access: Access, logLevel: LogLevel, otel: Otel, appliance: Option<Appliance>,
    settings: Settings)

  /** `createClawRecord`, the desired state. */
  function NormalizeDesired(input: Input, claw: ClawId, fleet: Option<Fleet>): Result<Desired, string> {
    var name := RequireText(input.name, 80);
    var slug := RequireText(input.slug, 63);
    var templateId := RequireText(input.templateId, 80);
    var inference := NormalizeInference(input.inference, claw, fleet);
    if name.Failure? then Failure(name.error)
    else if slug.Failure? then Failure(slug.error)
    else if templateId.Failure? then Failure(templateId.error)
    else if inference.Failure? then Failure(inference.error)
    else Success(Desired(
      1, name.value, slug.value, templateId.value, input.templateVersion, inference.value, input.slackEnabled,
      input.access, input.logLevel, input.otel, input.appliance, input.settings, true, 1))
  }

  function CreateRecord(input: Input, claw: ClawId, fleet: Option<Fleet>): Result<ClawRecord, string> {
    var desired := NormalizeDesired(input, claw, fleet);
    if desired.Failure? then Failure(desired.error) else Success(ClawRecord(claw, 1, desired.value, FIRST_OBSERVED))
  }

  datatype Patch = Patch(
    name: Option<string>, templateId: Option<string>, templateVersion: Option<nat>, provider: Option<string>,
    model: Option<string>, fallbackModels: Option<seq<string>>, authRef: Option<string>,
    monthlyBudgetUsd: Option<real>, slackEnabled: Option<bool>,
    dmPolicy: Option<DmPolicy>, groupPolicy: Option<GroupPolicy>, logLevel: Option<LogLevel>, otel: Option<Otel>,
    appliance: Option<Option<Appliance>>, settings: Option<Settings>)

  const NO_PATCH := Patch(None, None, None, None, None, None, None, None, None, None, None, None, None, None, None)

  function Or<T>(o: Option<T>, default: T): T { if o.Some? then o.value else default }

  function FleetOf(d: Desired): Option<Fleet> {
    match d.inference.router
    case Direct => None
    case ClawRouter(baseUrl, tenantId, _, _, allowed, providers, _) =>
      Some(Fleet(baseUrl, tenantId, allowed, providers, d.inference.model))
  }

  function Merge(d: Desired, p: Patch): Input {
    var provider := if p.provider.Some? then p.provider else if p.model.Some? then None else Some(d.inference.provider);
    Input(
      Or(p.name, d.name), d.slug, Or(p.templateId, d.templateId), Or(p.templateVersion, d.templateVersion),
      InferenceInput(provider, Some(Or(p.model, d.inference.model)), Or(p.fallbackModels, d.inference.fallbackModels),
                     if p.authRef.Some? then p.authRef else d.inference.authRef,
                     if p.monthlyBudgetUsd.Some? then p.monthlyBudgetUsd else d.inference.monthlyBudgetUsd),
      Or(p.slackEnabled, d.slackEnabled), Access(Or(p.dmPolicy, d.access.dmPolicy), Or(p.groupPolicy, d.access.groupPolicy)),
      Or(p.logLevel, d.logLevel), Or(p.otel, d.otel), Or(p.appliance, d.appliance), Or(p.settings, d.settings))
  }

  /** `updateClawRecord`: the record itself when nothing changes, otherwise its next generation and revision. */
  function UpdateRecord(record: ClawRecord, patch: Patch): Result<ClawRecord, string> {
    var merged := NormalizeDesired(Merge(record.desired, patch), record.id, FleetOf(record.desired));
    if merged.Failure? then Failure(merged.error)
    else
      var d := record.desired;
      var desired := merged.value.(
        generation := d.generation, enabled := d.enabled, credentialsGeneration := d.credentialsGeneration);
      if desired == d then Success(record)
      else Success(record.(revision := record.revision + 1, desired := desired.(generation := d.generation + 1)))
  }

  /** `setClawEnabled` */
  function SetEnabled(record: ClawRecord, enabled: bool): ClawRecord {
    if record.desired.enabled == enabled then record
    else
      record.(revision := record.revision + 1,
      desired := record.desired.(enabled := enabled, generation := record.desired.generation + 1))
  }

  /** `rotateClawCredentials` */
  function RotateCredentials(record: ClawRecord): Result<ClawRecord, string> {
    if record.desired.credentialsGeneration + 1 > MAX_ROTATIONS then Failure("credential rotation limit reached")
    else
      Success(record.(revision := record.revision + 1,
      desired := record.desired.(credentialsGeneration := record.desired.credentialsGeneration + 1,
                                 generation := record.desired.generation + 1)))
  }

  // ---------- Normal form ----------

  predicate NormalInference(inference: Inference, claw: ClawId) {
    var routed := inference.router.ClawRouter?;
    && ValidModel(inference.model, routed) && CleanText(inference.model, 220)
    && DistinctTexts(inference.fallbackModels)
    && (forall m :: m in inference.fallbackModels ==> ValidModel(m, routed))
    && inference.provider == ProviderOf(inference.model)
    && CleanText(inference.provider, 220)
    && (inference.authRef.Some? ==> CleanText(inference.authRef.value, 240)) && ValidBudget(inference.monthlyBudgetUsd)
    && (routed ==>
          var r := inference.router;
          && r.credentialId == CredentialId(claw) && r.projectId == claw
          && inference.authRef == Some(RouterAuthRef(claw))
          && r.providers == ProvidersOf([inference.model] + inference.fallbackModels, r.modelProviders)
          && "" !in r.providers && (forall p :: p in r.providers ==> p in r.allowedProviders))
  }

  predicate NormalForm(record: ClawRecord) {
    && UuidText(record.id)
    && CleanText(record.desired.name, 80) && CleanText(record.desired.slug, 63)
    && CleanText(record.desired.templateId, 80)
    && NormalInference(record.desired.inference, record.id)
  }

  lemma {:induction false} ProviderIsPartOfModel(model: string)
    ensures forall c :: c in ProviderOf(model) ==> c in model
  {
    if model != "" && model[0] != '/' {
      ProviderIsPartOfModel(model[1..]);
    }
  }

  lemma CleanTextPasses(s: string, max: nat)
    ensures RequireText(s, max).Success? ==> CleanText(RequireText(s, max).value, max)
    ensures CleanText(s, max) ==> RequireText(s, max) == Success(s)
  {
    TrimTrims(s);
  }

  lemma {:induction false} WithoutDashesIsClean(s: string)
    ensures |WithoutDashes(s)| <= |s| && forall c :: c in WithoutDashes(s) ==> c in s
  {
    if s != "" {
      WithoutDashesIsClean(s[1..]);
    }
  }

  lemma RouterAuthRefIsClean(claw: ClawId)
    requires UuidText(claw)
    ensures CleanText(RouterAuthRef(claw), 240)
  {
    WithoutDashesIsClean(claw);
    assert |RouterAuthRef(claw)| == 11 + 9 + |WithoutDashes(claw)|;
    assert forall c :: c in WithoutDashes(claw) ==> !Blank(c);
  }

  lemma {:induction false} ProviderIsShorter(model: string)
    requires '/' in model
    ensures |ProviderOf(model)| < |model|
  {
    if model[0] != '/' {
      ProviderIsShorter(model[1..]);
    }
  }

  lemma ProviderIsClean(model: string, routed: bool)
    requires ValidModel(model, routed) && |model| <= 220
    ensures CleanText(ProviderOf(model), 220)
  {
    ProviderIsPartOfModel(model);
    ProviderIsShorter(model);
    assert forall c :: c in ProviderOf(model) ==> !Blank(c);
  }

  /** Normalisation produces normal inference policies and leaves them alone. */
  lemma NormalizedInference(input: InferenceInput, claw: ClawId, fleet: Option<Fleet>)
    requires UuidText(claw) && NormalizeInference(input, claw, fleet).Success?
    ensures NormalInference(NormalizeInference(input, claw, fleet).value, claw)
  {
    var out := NormalizeInference(input, claw, fleet).value;
    DedupeIsDistinct(input.fallbackModels);
    CleanTextPasses(out.model, 220);
    ProviderIsClean(out.model, fleet.Some?);
    RouterAuthRefIsClean(claw);
    if input.authRef.Some? {
      CleanTextPasses(input.authRef.value, 240);
    }
  }

  /** It refuses a normal policy only if that is passed with its provider's name and the name is too long. */
  lemma NormalInferencePasses(inference: Inference, claw: ClawId, fleet: Option<Fleet>, provider: Option<string>)
    requires NormalInference(inference, claw)
    requires provider.Some? ==> provider.value == inference.provider
    requires match inference.router
             case Direct => fleet.None?
             case ClawRouter(baseUrl, tenantId, _, _, allowed, providers, _) =>
               fleet.Some? && fleet.value.baseUrl == baseUrl && fleet.value.tenantId == tenantId &&
               fleet.value.allowedProviders == allowed && fleet.value.modelProviders == providers
    ensures NormalizeInference(
              InferenceInput(provider, Some(inference.model), inference.fallbackModels, inference.authRef,
                             inference.monthlyBudgetUsd), claw, fleet)
         == if provider.Some? && |inference.provider| > MAX_PROVIDER then Failure("text is required")
            else Success(inference)
  {
    CleanTextPasses(inference.model, 220);
    DedupeIsDistinct(inference.fallbackModels);
    TrimTrims(inference.provider);
    if inference.authRef.Some? {
      CleanTextPasses(inference.authRef.value, 240);
    }
  }

  const LONG_PROVIDER: string := seq(81, _ => 'a')

  const LONG_MODEL := LONG_PROVIDER + "/m"

  /** A claw that can be created and that the empty patch cannot pass: the first part of a direct model may be longer. */
  lemma LongProviderIsStuck(input: Input, claw: ClawId)
    requires UuidText(claw)
    requires CleanText(input.name, 80) && CleanText(input.slug, 63) && CleanText(input.templateId, 80)
    requires input.inference == InferenceInput(None, Some(LONG_MODEL), [], None, None)
    ensures CreateRecord(input, claw, None).Success?
    ensures UpdateRecord(CreateRecord(input, claw, None).value, NO_PATCH).Failure?
  {
    CleanTextPasses(input.name, 80);
    CleanTextPasses(input.slug, 63);
    CleanTextPasses(input.templateId, 80);
    LongModelPasses(claw);
    CreatedIsNormal(input, claw, None);
    NormalFormIsFixpoint(CreateRecord(input, claw, None).value);
  }

  lemma LongModelPasses(claw: ClawId)
    ensures NormalizeInference(InferenceInput(None, Some(LONG_MODEL), [], None, None), claw, None) ==
            Success(Inference(LONG_PROVIDER, LONG_MODEL, [], None, None, Direct))
  {
    ProviderStopsAtSlash(LONG_PROVIDER, "/m");
    assert LONG_MODEL[81] == '/' && LONG_MODEL[82] == 'm' && LONG_MODEL[0] == 'a';
    assert ROUTED_PREFIX[0] == 'c';
    CleanTextPasses(LONG_MODEL, 220);
  }

  lemma {:induction false} ProviderStopsAtSlash(name: string, rest: string)
    requires '/' !in name && rest != "" && rest[0] == '/'
    ensures ProviderOf(name + rest) == name
  {
    if name == "" {
      assert name + rest == rest;
    } else {
      assert (name + rest)[1..] == name[1..] + rest;
      ProviderStopsAtSlash(name[1..], rest);
    }
  }

  lemma CreatedIsNormal(input: Input, claw: ClawId, fleet: Option<Fleet>)
    requires UuidText(claw) && CreateRecord(input, claw, fleet).Success?
    ensures NormalForm(CreateRecord(input, claw, fleet).value)
  {
    CleanTextPasses(input.name, 80);
    CleanTextPasses(input.slug, 63);
    CleanTextPasses(input.templateId, 80);
    NormalizedInference(input.inference, claw, fleet);
  }

  /** An update keeps the normal form, the identity of the record and what it does not own. */
  lemma UpdateIsNormal(record: ClawRecord, patch: Patch)
    requires NormalForm(record) && UpdateRecord(record, patch).Success?
    ensures var next := UpdateRecord(record, patch).value;
            && NormalForm(next)
            && next.id == record.id && next.observed == record.observed
            && next.desired.enabled == record.desired.enabled
            && next.desired.credentialsGeneration == record.desired.credentialsGeneration
            && (next != record ==>
                  next.revision == record.revision + 1 && next.desired.generation == record.desired.generation + 1)
  {
    var input := Merge(record.desired, patch);
    CleanTextPasses(input.name, 80);
    CleanTextPasses(input.slug, 63);
    CleanTextPasses(input.templateId, 80);
    NormalizedInference(input.inference, record.id, FleetOf(record.desired));
  }

  /**
   The empty patch leaves a record in normal form alone exactly if the name of its model provider is not too long:
   an update passes that name on, and only there is its length checked.
   */
  lemma NormalFormIsFixpoint(record: ClawRecord)
    requires NormalForm(record)
    ensures UpdateRecord(record, NO_PATCH) ==
            if |record.desired.inference.provider| <= MAX_PROVIDER then Success(record) else Failure("text is required")
  {
    CleanTextPasses(record.desired.name, 80);
    CleanTextPasses(record.desired.slug, 63);
    CleanTextPasses(record.desired.templateId, 80);
    NormalInferencePasses(record.desired.inference, record.id, FleetOf(record.desired),
                          Some(record.desired.inference.provider));
  }
}
