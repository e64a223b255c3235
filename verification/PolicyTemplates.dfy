/** Managed policies: preview and application (src/domain.ts:274-328, src/registry.ts:191-256). */
module PolicyTemplates {
  import opened Common
  import opened ClawRecords

  datatype PolicySpec = PolicySpec(
    model: string, fallbackModels: seq<string>, slackEnabled: bool, access: Access, logLevel: LogLevel)

  /** What `normalizeManagedPolicySpec` establishes when a policy version is stored. */
  predicate NormalSpec(spec: PolicySpec) {
    var routed := StartsWith(spec.model, ROUTED_PREFIX);
    && ValidModel(spec.model, routed) && CleanText(spec.model, 220)
    && DistinctTexts(spec.fallbackModels)
    && forall m :: m in spec.fallbackModels ==> ValidModel(m, routed)
  }

  function NormalizeSpec(spec: PolicySpec): Result<PolicySpec, string> {
    var model := RequireText(spec.model, 220);
    if model.Failure? then Failure(model.error) else
    var normal := spec.(model := model.value, fallbackModels := Dedupe(spec.fallbackModels));
    if NormalSpec(normal) then Success(normal) else Failure("model must use provider/model form")
  }

  datatype Field = ModelField | FallbackField | SlackField | DmField | GroupField | LogField
  datatype Shown = Text(text: string) | Flag(flag: bool) | Dm(dm: DmPolicy) | Group(group: GroupPolicy) | Log(log: LogLevel)
  datatype Change = Change(field: Field, before: Shown, after: Shown)

  function Join(xs: seq<string>): string {
    if xs == [] then "" else if |xs| == 1 then xs[0] else xs[0] + ", " + Join(xs[1..])
  }

  /** `fallbackModels.join(", ") || "none"` */
  function ShowModels(xs: seq<string>): string { if Join(xs) == "" then "none" else Join(xs) }

  function Entry(field: Field, before: Shown, after: Shown): seq<Change> {
    if before == after then [] else [Change(field, before, after)]
  }

  /** `managedPolicyDiff` */
  function PolicyDiff(record: ClawRecord, spec: PolicySpec): seq<Change> {
    var d := record.desired;
    Entry(ModelField, Text(d.inference.model), Text(spec.model)) +
    Entry(FallbackField, Text(ShowModels(d.inference.fallbackModels)), Text(ShowModels(spec.fallbackModels))) +
    Entry(SlackField, Flag(d.slackEnabled), Flag(spec.slackEnabled)) +
    Entry(DmField, Dm(d.access.dmPolicy), Dm(spec.access.dmPolicy)) +
    Entry(GroupField, Group(d.access.groupPolicy), Group(spec.access.groupPolicy)) +
    Entry(LogField, Log(d.logLevel), Log(spec.logLevel))
  }

  /** `managedPolicyPatch` */
  function PolicyPatch(policyId: string, version: nat, spec: PolicySpec): Patch {
    NO_PATCH.(templateId := Some(Trim(policyId)), templateVersion := Some(version), model := Some(spec.model),
    fallbackModels := Some(spec.fallbackModels), slackEnabled := Some(spec.slackEnabled),
    dmPolicy := Some(spec.access.dmPolicy), groupPolicy := Some(spec.access.groupPolicy),
    logLevel := Some(spec.logLevel))
  }

  /** All managed fields of the record are those of the policy. */
  predicate Managed(record: ClawRecord, spec: PolicySpec) {
    var d := record.desired;
    && d.inference.model == spec.model && d.inference.fallbackModels == spec.fallbackModels
    && d.slackEnabled == spec.slackEnabled && d.access == spec.access && d.logLevel == spec.logLevel
  }

  // ---------- The printed lists lose nothing ----------

  /** What precedes the first comma. */
  function Head(s: string): string { if s == "" || s[0] == ',' then "" else [s[0]] + Head(s[1..]) }

  lemma {:induction false} HeadOfSegment(a: string, rest: string)
    requires ',' !in a
    requires rest == "" || rest[0] == ','
    ensures Head(a + rest) == a && (a + rest)[|a|..] == rest
  {
    if a == "" {
      assert a + rest == rest;
    } else {
      assert (a + rest)[1..] == a[1..] + rest;
      HeadOfSegment(a[1..], rest);
      assert [a[0]] + a[1..] == a;
    }
  }

  function Tail(xs: seq<string>): string { if |xs| <= 1 then "" else ", " + Join(xs[1..]) }

  lemma JoinIsEmpty(xs: seq<string>)
    requires "" !in xs
    ensures Join(xs) == "" <==> xs == []
  {
    if xs != [] {
      assert xs[0] in xs;
      assert Join(xs) == xs[0] + Tail(xs);
    }
  }

  lemma JoinSplits(xs: seq<string>)
    requires xs != [] && ',' !in xs[0]
    ensures Head(Join(xs)) == xs[0] && Join(xs)[|xs[0]|..] == Tail(xs)
  {
    assert Join(xs) == xs[0] + Tail(xs);
    HeadOfSegment(xs[0], Tail(xs));
  }

  lemma TailIsInjective(xs: seq<string>, ys: seq<string>)
    requires xs != [] && ys != [] && Tail(xs) == Tail(ys)
    ensures |xs| > 1 <==> |ys| > 1
    ensures |xs| > 1 ==> Join(xs[1..]) == Join(ys[1..])
  {
    if |xs| > 1 && |ys| > 1 {
      assert Join(xs[1..]) == Tail(xs)[2..] && Join(ys[1..]) == Tail(ys)[2..];
    }
  }

  predicate Segments(xs: seq<string>) { forall x :: x in xs ==> ',' !in x && x != "" }

  lemma {:induction false} JoinIsInjective(xs: seq<string>, ys: seq<string>)
    requires Segments(xs) && Segments(ys)
    requires Join(xs) == Join(ys)
    ensures xs == ys
  {
    JoinIsEmpty(xs);
    JoinIsEmpty(ys);
    if xs != [] {
      assert xs[0] in xs && ys[0] in ys;
      JoinSplits(xs);
      JoinSplits(ys);
      TailIsInjective(xs, ys);
      if |xs| > 1 {
        JoinIsInjective(xs[1..], ys[1..]);
      }
      assert xs == [xs[0]] + xs[1..] && ys == [ys[0]] + ys[1..];
    }
  }

  lemma ShownModelsAreModels(xs: seq<string>, ys: seq<string>)
    requires forall x :: x in xs ==> ModelText(x)
    requires forall y :: y in ys ==> ModelText(y)
    ensures ShowModels(xs) == ShowModels(ys) <==> xs == ys
  {
    ShownIsNotNone(xs);
    ShownIsNotNone(ys);
    if ShowModels(xs) == ShowModels(ys) {
      if xs == [] || ys == [] {
        assert xs == ys;
      } else {
        JoinIsInjective(xs, ys);
      }
    }
  }

  lemma ShownIsNotNone(xs: seq<string>)
    requires forall x :: x in xs ==> ModelText(x)
    ensures xs == [] <==> ShowModels(xs) == "none"
  {
    if xs != [] {
      assert Join(xs) == xs[0] + Tail(xs);
      assert xs[0] in xs && '/' in xs[0] && '/' in Join(xs);
      assert '/' !in "none";
    }
  }

  // ---------- Preview and application agree ----------

  /** The preview is empty if and only if every managed field already has the policy's value. */
  lemma EmptyDiffIffManaged(record: ClawRecord, spec: PolicySpec)
    requires NormalForm(record) && NormalSpec(spec)
    ensures PolicyDiff(record, spec) == [] <==> Managed(record, spec)
  {
    ShownModelsAreModels(record.desired.inference.fallbackModels, spec.fallbackModels);
  }

  /** What normalisation makes of a policy's models: the models themselves. */
  lemma ModelsAreApplied(input: InferenceInput, claw: ClawId, fleet: Option<Fleet>, spec: PolicySpec)
    requires NormalSpec(spec)
    requires input.model == Some(spec.model) && input.fallbackModels == spec.fallbackModels
    requires NormalizeInference(input, claw, fleet).Success?
    ensures var out := NormalizeInference(input, claw, fleet).value;
            out.model == spec.model && out.fallbackModels == spec.fallbackModels
  {
    assert CleanText(spec.model, 220);
    CleanTextPasses(spec.model, 220);
    DedupeIsDistinct(spec.fallbackModels);
  }

  lemma ApplicationManages(record: ClawRecord, policyId: string, version: nat, spec: PolicySpec)
    requires NormalSpec(spec)
    requires UpdateRecord(record, PolicyPatch(policyId, version, spec)).Success?
    ensures var next := UpdateRecord(record, PolicyPatch(policyId, version, spec)).value;
            && Managed(next, spec)
            && next.desired.templateVersion == version && next.desired.templateId == Trim(policyId)
  {
    var input := Merge(record.desired, PolicyPatch(policyId, version, spec));
    ModelsAreApplied(input.inference, record.id, FleetOf(record.desired), spec);
    TrimTrims(policyId);
    CleanTextPasses(Trim(policyId), 80);
  }

  /** After a successful application the preview of the same version is empty. */
  lemma ApplicationEmptiesDiff(record: ClawRecord, policyId: string, version: nat, spec: PolicySpec)
    requires NormalForm(record) && NormalSpec(spec)
    requires UpdateRecord(record, PolicyPatch(policyId, version, spec)).Success?
    ensures var next := UpdateRecord(record, PolicyPatch(policyId, version, spec)).value;
            && NormalForm(next) && Managed(next, spec) && PolicyDiff(next, spec) == []
            && next.desired.templateVersion == version && next.desired.templateId == Trim(policyId)
  {
    var patch := PolicyPatch(policyId, version, spec);
    var next := UpdateRecord(record, patch).value;
    UpdateIsNormal(record, patch);
    ApplicationManages(record, policyId, version, spec);
    EmptyDiffIffManaged(next, spec);
  }

  /**
   Applying leaves a record alone, with no generation or revision bump, exactly when its preview is empty and it
   carries the policy's id and version already.
   */
  lemma UnchangedIffPreviewEmpty(record: ClawRecord, policyId: string, version: nat, spec: PolicySpec)
    requires NormalForm(record) && NormalSpec(spec)
    ensures UpdateRecord(record, PolicyPatch(policyId, version, spec)) == Success(record) <==>
            PolicyDiff(record, spec) == [] &&
            record.desired.templateId == Trim(policyId) && record.desired.templateVersion == version
  {
    EmptyDiffIffManaged(record, spec);
    var patch := PolicyPatch(policyId, version, spec);
    if UpdateRecord(record, patch) == Success(record) {
      ApplicationEmptiesDiff(record, policyId, version, spec);
    }
    if Managed(record, spec) && record.desired.templateId == Trim(policyId) {
      CleanTextPasses(record.desired.name, 80);
      CleanTextPasses(record.desired.slug, 63);
      CleanTextPasses(record.desired.templateId, 80);
      NormalInferencePasses(record.desired.inference, record.id, FleetOf(record.desired), None);
    }
  }

  /** Re-applying the same version changes nothing. */
  lemma ReapplicationChangesNothing(record: ClawRecord, policyId: string, version: nat, spec: PolicySpec)
    requires NormalForm(record) && NormalSpec(spec)
    requires UpdateRecord(record, PolicyPatch(policyId, version, spec)).Success?
    ensures var next := UpdateRecord(record, PolicyPatch(policyId, version, spec)).value;
            UpdateRecord(next, PolicyPatch(policyId, version, spec)) == Success(next)
  {
    ApplicationEmptiesDiff(record, policyId, version, spec);
    UnchangedIffPreviewEmpty(UpdateRecord(record, PolicyPatch(policyId, version, spec)).value, policyId, version, spec);
  }

  lemma NormalizedSpecIsNormal(spec: PolicySpec)
    requires NormalizeSpec(spec).Success?
    ensures NormalSpec(NormalizeSpec(spec).value)
    ensures NormalizeSpec(NormalizeSpec(spec).value) == NormalizeSpec(spec)
  {
    var normal := NormalizeSpec(spec).value;
    CleanTextPasses(spec.model, 220);
    CleanTextPasses(normal.model, 220);
    DedupeIsDistinct(spec.fallbackModels);
    DedupeIsDistinct(normal.fallbackModels);
  }
}
