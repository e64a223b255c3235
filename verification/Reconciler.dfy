/**
 What one reconciliation of a claw decides (src/reconciler.ts:93-447), as a function of the record it read and of the
 answers it gets from the provider, the inference control and the clock.
 */
module Reconciler {
  import opened Common
  import opened ClawRecords

  // ---------- Answers of the outside world ----------

  /** `Failed` stands for the one operational error the deletion stages tolerate, CRABBOX_WORKSPACE_FAILED. */
  datatype Answer<+T> = Answered(value: T) | WorkspaceFailed | Broken

  /** What the types of `ProvisionResult` allow (src/types.ts:337-355). */
  type ReportedPhase = p: Phase | p in {Enrolling, Ready, Attention} witness Enrolling
  type ReportedHealth = h: Health | h in {Unknown, Healthy} witness Unknown

  /** `InspectResult`; absent fields are absent keys of the object that is spread over the observed state. */
  datatype Inspection = Inspection(
    absent: bool, invalidate: bool, phase: Option<ReportedPhase>, health: Option<Health>, lifecycle: Option<nat>,
    link: Option<LinkStatus>, configHash: Option<PolicyKey>, probes: Option<Probes>, lastSeenAt: Option<Time>)

  /** `ProvisionResult` */
  datatype Provision = Provision(
    phase: ReportedPhase, health: ReportedHealth, lifecycle: nat, link: Option<LinkStatus>,
    configHash: Option<PolicyKey>, probes: Option<Probes>)

  datatype Disabling = Disabling(applied: bool, result: Inspection)
  datatype Revocation = Revocation(removedPairedDevice: bool, rejectedPendingRequest: bool, alreadyAbsent: bool)

  /** `drained` at `observedAt`; the quiet period is judged at `decidedAt`. */
  datatype Clock = Clock(attemptAt: Time, observedAt: Time, decidedAt: Time)

  datatype Answers = Answers(
    route: Answer<Route>, inspect: Answer<Inspection>, disable: Answer<Disabling>, drain: Answer<bool>,
    remove: Answer<bool>, revoke: Answer<Revocation>, provision: Answer<Provision>, clock: Clock)

  // ---------- What is written ----------

  /** What a committed write has learnt about the outside world. */
  datatype Note =
    | Drained(observedAt: Time, decidedAt: Time)
    | Undrained
    | ProviderAbsent
    | ControlRevoked
    | Proof(desired: Desired, evidence: Evidence)
    | Nothing

  /** A provider's answer, with the route observation it was judged by. */
  datatype Evidence = Evidence(phase: Phase, health: Health, route: Option<Route>, probes: Option<Probes>)

  /** `Write` ends the reconciliation; `Announce` is followed by `provider.provision`. */
  datatype Decision = NoWrite | Write(observed: Observed, note: Note) | Announce(observed: Observed)

  // ---------- The rules ----------

  /** `inferenceResult` */
  function Judge(route: Option<Route>, probes: Option<Probes>): Option<Route> {
    if route.None? then None
    else
      var r := route.value;
      Some(r.(routeVerified :=
      r.routerHealthy && r.catalogReady && probes.Some? && probes.value.liveInference &&
      probes.value.configuredModel == r.model && probes.value.resolvedModel == Some(r.model)))
  }

  predicate Verified(route: Option<Route>) { route.Some? && route.value.routeVerified }

  predicate Routed(d: Desired) { d.inference.router.ClawRouter? }

  /** `{...claw, observed: {...claw.observed, inference}}` */
  function WithRoute(claw: ClawRecord, route: Option<Route>): ClawRecord {
    if route.None? then claw else claw.(observed := claw.observed.(inference := route))
  }

  function FailureWrite(claw: ClawRecord): Decision {
    Write(claw.observed.(phase := Attention, health := Degraded), Nothing)
  }

  /** `{...observed, ...result}` without what the caller overwrites anyway */
  function Spread(o: Observed, r: Inspection): Observed {
    o.(phase := Or(r.phase, o.phase), health := Or(r.health, o.health),
    lifecycle := if r.lifecycle.Some? then r.lifecycle else o.lifecycle,
    link := Or(r.link, o.link),
    configHash := if r.configHash.Some? then r.configHash else o.configHash,
    probes := if r.probes.Some? then r.probes else o.probes,
    lastSeenAt := if r.lastSeenAt.Some? then r.lastSeenAt else o.lastSeenAt)
  }

  /** `#markProviderAbsent` */
  function AbsentWrite(claw: ClawRecord, at: Time): Decision
    requires claw.observed.deletion.Some?
  {
    Write(claw.observed.(phase := Deleting, health := Offline,
          deletion := Some(claw.observed.deletion.value.(stage := RevokeStage, lastAttemptAt := Some(at)))),
          ProviderAbsent)
  }

  function StageWrite(o: Observed, d: Deletion, note: Note): Decision {
    Write(o.(phase := Deleting, deletion := Some(d)), note)
  }

  /** `#markDeleted` */
  function DeletedWrite(claw: ClawRecord): Decision {
    Write(claw.observed.(generation := claw.desired.generation, phase := Deleted, health := Offline,
          link := LinkRevoked, deletion := None), ControlRevoked)
  }

  function DisableStagePlan(claw: ClawRecord, a: Answers): Decision
    requires claw.observed.deletion.Some?
  {
    var d := claw.observed.deletion.value.(stage := DrainStage, lastAttemptAt := Some(a.clock.attemptAt));
    if a.inspect.WorkspaceFailed? then StageWrite(claw.observed.(health := Offline), d, Nothing)
    else if a.inspect.Broken? then FailureWrite(claw)
    else if a.inspect.value.absent then AbsentWrite(claw, a.clock.decidedAt)
    else if !a.disable.Answered? || !a.disable.value.applied then FailureWrite(claw)
    else StageWrite(Spread(claw.observed, a.disable.value.result), d, Nothing)
  }

  function DrainStagePlan(claw: ClawRecord, a: Answers, quiet: Time): Decision
    requires claw.observed.deletion.Some?
  {
    var d := claw.observed.deletion.value.(lastAttemptAt := Some(a.clock.attemptAt));
    var o := claw.observed;
    if a.inspect.Broken? then FailureWrite(claw)
    else if a.inspect.Answered? && a.inspect.value.absent then AbsentWrite(claw, a.clock.decidedAt)
    else if !a.drain.Answered? then FailureWrite(claw)
    else if !a.drain.value then StageWrite(o, d.(drainedAt := None), Undrained)
    else
      var note := Drained(a.clock.observedAt, a.clock.decidedAt);
      if d.drainedAt.None? then StageWrite(o, d.(drainedAt := Some(a.clock.observedAt)), note)
      else if a.clock.decidedAt - d.drainedAt.value < quiet then StageWrite(o, d, note)
      else StageWrite(o, d.(stage := ReleaseStage), note)
  }

  /** The release and confirm stages, the only ones that call `provider.remove`. */
  function RemoveStagePlan(claw: ClawRecord, a: Answers): Decision
    requires claw.observed.deletion.Some?
  {
    if !a.remove.Answered? then FailureWrite(claw)
    else if a.remove.value then AbsentWrite(claw, a.clock.decidedAt)
    else
      StageWrite(claw.observed,
        claw.observed.deletion.value.(stage := ConfirmStage, lastAttemptAt := Some(a.clock.attemptAt)), Nothing)
  }

  function RevokeStagePlan(claw: ClawRecord, a: Answers): Decision {
    if a.revoke.Answered? &&
       (a.revoke.value.alreadyAbsent || a.revoke.value.removedPairedDevice || a.revoke.value.rejectedPendingRequest)
    then DeletedWrite(claw)
    else FailureWrite(claw)
  }

  function DeletionPlan(claw: ClawRecord, a: Answers, quiet: Time): Decision
    requires claw.observed.deletion.Some?
  {
    match claw.observed.deletion.value.stage
    case DisableStage => DisableStagePlan(claw, a)
    case DrainStage => DrainStagePlan(claw, a, quiet)
    case ReleaseStage => RemoveStagePlan(claw, a)
    case ConfirmStage => RemoveStagePlan(claw, a)
    case RevokeStage => RevokeStagePlan(claw, a)
  }

  function DisabledPlan(claw: ClawRecord, a: Answers): Decision {
    if !a.disable.Answered? || !a.disable.value.applied then FailureWrite(claw)
    else
      Write(Spread(claw.observed, a.disable.value.result).(generation := claw.desired.generation, phase := Disabled),
            Nothing)
  }

  /** The provider no longer has the workspace: forget it, the next reconciliation provisions again. */
  function RecreateWrite(claw: ClawRecord): Decision {
    Write(claw.observed.(generation := 0, phase := Provisioning, health := Offline, lifecycle := None,
          link := LinkOffline, configHash := None, probes := None, lastSeenAt := None), Nothing)
  }

  function Invalidated(o: Observed): Observed {
    o.(generation := 0, link := LinkOffline, configHash := None, probes := None, lastSeenAt := None,
    inference := if o.inference.Some? then Some(o.inference.value.(routeVerified := false)) else None)
  }

  function InspectPlan(claw: ClawRecord, route: Option<Route>, a: Answers): Decision {
    if !a.inspect.Answered? then FailureWrite(claw)
    else if a.inspect.value.absent then RecreateWrite(claw)
    else
      var result := a.inspect.value;
      var ready := result.phase == Some(Ready) && result.health == Some(Healthy);
      var judged := Judge(route, result.probes);
      var routedReady := ready && (route.None? || Verified(judged));
      var policyApplied := result.configHash == Some(PolicyHash(claw.desired));
      var previous := if result.invalidate then Invalidated(claw.observed) else claw.observed;
      Write(
        Spread(previous, result).(
        generation := if routedReady || policyApplied then claw.desired.generation else previous.generation,
        phase := if ready && !routedReady then Attention else Or(result.phase, previous.phase),
        health := if ready && !routedReady then Degraded else Or(result.health, previous.health),
        inference := if judged.Some? then judged else previous.inference),
        if routedReady then Proof(claw.desired, Evidence(Ready, Healthy, judged, result.probes)) else Nothing)
  }

  /** The second half of a reconciliation that announced a new workspace. */
  function ProvisionPlan(claw: ClawRecord, route: Option<Route>, a: Answers): Decision {
    if !a.provision.Answered? then FailureWrite(claw)
    else
      var result := a.provision.value;
      var judged := Judge(route, result.probes);
      var ready := result.phase.Ready? && (route.None? || Verified(judged));
      var unproven := result.phase.Ready? && !ready;
      Write(
        Observed(
          if ready then claw.desired.generation else 0,
          if unproven then Attention else result.phase, if unproven then Degraded else result.health,
          Some(result.lifecycle), Or(result.link, claw.observed.link), result.configHash, result.probes,
          if ready then Some(a.clock.decidedAt) else None, judged, None, None),
        if ready then Proof(claw.desired, Evidence(Ready, result.health, judged, result.probes)) else Nothing)
  }

  /** `#reconcileOne` after the inference control, up to its first write; `claw` carries the new route. */
  function PlanRouted(claw: ClawRecord, route: Option<Route>, a: Answers, quiet: Time): Decision {
    if claw.observed.deletion.Some? then DeletionPlan(claw, a, quiet)
    else if !claw.desired.enabled then DisabledPlan(claw, a)
    else if claw.observed.lifecycle.None? then Announce(claw.observed.(phase := Provisioning))
    else InspectPlan(claw, route, a)
  }

  function Plan(snapshot: ClawRecord, a: Answers, quiet: Time): Decision {
    if snapshot.observed.phase.Deleted? then NoWrite
    else if Routed(snapshot.desired) && !a.route.Answered? then FailureWrite(snapshot)
    else
      var route := if Routed(snapshot.desired) then Some(a.route.value) else None;
      PlanRouted(WithRoute(snapshot, route), route, a, quiet)
  }

  // ---------- Which answers the code relies on ----------

  predicate SaysReady(result: Inspection) { result.phase == Some(Ready) && result.health == Some(Healthy) }

  predicate RouteProven(route: Option<Route>, probes: Option<Probes>) {
    route.None? || Verified(Judge(route, probes))
  }

  /** After this inspection the claw counts as observed at its desired generation, ready or not. */
  predicate Lands(claw: ClawRecord, result: Inspection) {
    || result.configHash == Some(PolicyHash(claw.desired))
    || claw.desired.generation == if result.invalidate then 0 else claw.observed.generation
  }

  /**
   At the desired generation the provider calls a claw ready only together with healthy, and leaves out the phase only
   where the one on record may stand: not `disabled`, and `ready` only if it was observed at this very generation, the
   evidence is not discarded and the route is proven again.
   */
  predicate HonestInspection(claw: ClawRecord, route: Option<Route>, result: Inspection) {
    var phase := Or(result.phase, claw.observed.phase);
    Lands(claw, result) && !SaysReady(result) && phase in {Ready, Disabled} ==>
      && phase.Ready? && StaysReady(claw, result) && RouteProven(route, result.probes)
  }

  predicate StaysReady(claw: ClawRecord, result: Inspection) {
    claw.observed.phase.Ready? && claw.observed.generation == claw.desired.generation && !result.invalidate
  }

  /** A new workspace is called ready only when it is healthy. */
  predicate HonestProvision(route: Option<Route>, result: Provision) {
    result.phase.Ready? && RouteProven(route, result.probes) ==> result.health.Healthy?
  }
}
