/**
 The fleet registry (src/registry.ts:74-463): every operation runs alone (`#serialize`), inside the store's
 transaction when there is one.  The rules of each operation are functions of the record it concerns, shared with
 FleetRuns.
 */
module FleetRegistry {
  import opened Common
  import opened ClawRecords
  import opened PolicyTemplates

  // ---------- What each operation makes of a record ----------

  predicate Frozen(r: ClawRecord) { r.observed.phase.Deleted? || r.observed.phase.Deleting? || r.observed.deletion.Some? }

  /** The deployment placements this control plane is configured for, if it restricts them. */
  type Targets = Option<set<string>>

  predicate Placeable(d: Desired, targets: Targets) { targets.Some? ==> d.settings.placement in targets.value }

  function UpdateStep(r: ClawRecord, patch: Patch, targets: Targets): Result<ClawRecord, string> {
    if Frozen(r) then Failure("cannot update a deleting or deleted claw") else
    var next := UpdateRecord(r, patch);
    if next.Failure? then next
    else if !Placeable(next.value.desired, targets) then Failure("deployment target is not configured")
    else if next.value != r && r.observed.lifecycle.Some? &&
            next.value.desired.settings.placement != r.desired.settings.placement
    then Failure("deployment placement is immutable after workspace allocation")
    else next
  }

  function EnableStep(r: ClawRecord, enabled: bool): Result<ClawRecord, string> {
    if Frozen(r) then Failure("cannot change a deleting or deleted claw") else Success(SetEnabled(r, enabled))
  }

  function RotateStep(r: ClawRecord): Result<ClawRecord, string> {
    if Frozen(r) then Failure("cannot rotate credentials for a deleting or deleted claw") else RotateCredentials(r)
  }

  function RemovalStep(r: ClawRecord, confirmation: string, now: Time): Result<ClawRecord, string> {
    if confirmation != r.desired.name && confirmation != r.desired.slug
    then Failure("typed confirmation must match the claw name or slug")
    else if r.observed.phase.Deleted? || r.observed.deletion.Some? then Success(r)
    else
      Success(r.(revision := r.revision + 1,
      desired := r.desired.(enabled := false, generation := r.desired.generation + 1),
      observed := r.observed.(phase := Deleting, deletion := Some(Deletion(DisableStage, now, None, None)))))
  }

  function WriteStep(r: ClawRecord, observed: Observed, expected: Option<nat>): Result<ClawRecord, string> {
    if expected.Some? && expected.value != r.revision then Failure("REGISTRY_WRITE_CONFLICT")
    else Success(r.(revision := r.revision + 1, observed := observed))
  }

  /** What every accepted write of the desired state keeps and changes. */
  predicate DesiredWrite(before: ClawRecord, after: ClawRecord) {
    && after.id == before.id && after.desired.slug == before.desired.slug
    && (NormalForm(before) ==> NormalForm(after))
    && (after != before ==>
          after.revision == before.revision + 1 && after.desired.generation == before.desired.generation + 1)
  }

  lemma UpdateWrites(r: ClawRecord, patch: Patch, targets: Targets)
    requires NormalForm(r) && UpdateStep(r, patch, targets).Success?
    ensures DesiredWrite(r, UpdateStep(r, patch, targets).value)
    ensures UpdateStep(r, patch, targets).value.observed == r.observed
  {
    UpdateIsNormal(r, patch);
    CleanTextPasses(r.desired.slug, 63);
  }

  // ---------- The registry ----------

  datatype Action = CreateClaw | UpdateClaw | EnableClaw(enabled: bool) | RotateClaw | RemoveClaw | ApplyPolicyTo
                  | ObserveClaw

  datatype Audit = Audit(claw: ClawId, action: Action, generation: nat)

  type PolicyId = string

  ghost predicate UniqueSlugs(claws: map<ClawId, ClawRecord>) {
    forall i, j :: i in claws && j in claws && i != j &&
                   !claws[i].observed.phase.Deleted? && !claws[j].observed.phase.Deleted? ==>
                     claws[i].desired.slug != claws[j].desired.slug
  }

  ghost predicate WellFormed(claws: map<ClawId, ClawRecord>) {
    (forall id :: id in claws ==> claws[id].id == id && NormalForm(claws[id])) && UniqueSlugs(claws)
  }

  /** One record changes, keeps its slug and is not brought back from the dead. */
  lemma WriteKeepsWellFormed(claws: map<ClawId, ClawRecord>, id: ClawId, next: ClawRecord)
    requires WellFormed(claws) && id in claws && DesiredWrite(claws[id], next)
    requires claws[id].observed.phase.Deleted? ==> next.observed.phase.Deleted?
    ensures WellFormed(claws[id := next])
  {
    SlugsStayUnique(claws, id, next);
  }

  lemma SlugsStayUnique(claws: map<ClawId, ClawRecord>, id: ClawId, next: ClawRecord)
    requires UniqueSlugs(claws) && id in claws && next.desired.slug == claws[id].desired.slug
    requires claws[id].observed.phase.Deleted? ==> next.observed.phase.Deleted?
    ensures UniqueSlugs(claws[id := next])
  {
  }

  lemma ObservationKeepsWellFormed(claws: map<ClawId, ClawRecord>, id: ClawId, next: ClawRecord)
    requires WellFormed(claws) && id in claws && next.id == id && next.desired == claws[id].desired
    requires claws[id].observed.phase.Deleted? ==> next.observed.phase.Deleted?
    ensures WellFormed(claws[id := next])
  {
    SlugsStayUnique(claws, id, next);
  }

  predicate SlugTaken(claws: map<ClawId, ClawRecord>, slug: string) {
    exists other :: other in claws && !claws[other].observed.phase.Deleted? && claws[other].desired.slug == slug
  }

  function TrimAll(ids: seq<string>): seq<string> { seq(|ids|, i requires 0 <= i < |ids| => Trim(ids[i])) }

  /** `requireUniqueClawIds` */
  predicate ValidTargets(ids: seq<ClawId>) { 1 <= |ids| <= 100 && DistinctTexts(ids) && "" !in ids }

  predicate Fresh(claws: map<ClawId, ClawRecord>, id: ClawId, expected: map<ClawId, nat>) {
    && id in claws && !Frozen(claws[id])
    && id in expected && expected[id] == claws[id].desired.generation
  }

  function ChangeOf(policy: PolicyId, version: nat, spec: PolicySpec): ClawRecord -> Result<ClawRecord, string> {
    (r: ClawRecord) => UpdateRecord(r, PolicyPatch(policy, version, spec))
  }

  ghost predicate Writes(change: ClawRecord -> Result<ClawRecord, string>) {
    forall r :: NormalForm(r) && change(r).Success? ==>
                  DesiredWrite(r, change(r).value) && change(r).value.observed == r.observed
  }

  /** The change can be applied to all of the targets. */
  predicate Applicable(
    claws: map<ClawId, ClawRecord>, ids: seq<ClawId>, expected: map<ClawId, nat>,
    change: ClawRecord -> Result<ClawRecord, string>)
  {
    && ValidTargets(ids)
    && (forall id :: id in ids ==> Fresh(claws, id, expected) && change(claws[id]).Success?)
  }

  ghost predicate Elsewhere(before: map<ClawId, ClawRecord>, after: map<ClawId, ClawRecord>, ids: seq<ClawId>) {
    after.Keys == before.Keys && forall id :: id in before && id !in ids ==> after[id] == before[id]
  }

  ghost predicate AppliedTo(
    before: map<ClawId, ClawRecord>, after: map<ClawId, ClawRecord>, ids: seq<ClawId>,
    change: ClawRecord -> Result<ClawRecord, string>)
  {
    forall id :: id in ids ==> id in before && id in after && change(before[id]) == Success(after[id])
  }

  /** Exactly the first `k` targets were changed. */
  ghost predicate PartlyApplied(
    before: map<ClawId, ClawRecord>, after: map<ClawId, ClawRecord>, ids: seq<ClawId>,
    change: ClawRecord -> Result<ClawRecord, string>)
  {
    exists k :: 0 < k <= |ids| && AppliedTo(before, after, ids[..k], change) && Elsewhere(before, after, ids[..k])
  }

  datatype Preview = Preview(claw: ClawId, generation: nat, changes: seq<Change>)

  function PreviewOf(claw: ClawRecord, spec: PolicySpec): Preview {
    Preview(claw.id, claw.desired.generation, PolicyDiff(claw, spec))
  }

  class CrabhelmRegistry {
    var claws: map<ClawId, ClawRecord>
    var events: seq<Audit>
    var policies: map<PolicyId, seq<PolicySpec>>
    const targets: Targets
    const fleet: Option<Fleet>
    const transactional: bool

    constructor (targets: Targets, fleet: Option<Fleet>, transactional: bool)
      ensures Valid() && claws == map[] && events == []
      ensures this.targets == targets && this.fleet == fleet && this.transactional == transactional
    {
      claws, events, policies := map[], [], map[];
      this.targets, this.fleet, this.transactional := targets, fleet, transactional;
    }

    ghost predicate Valid()
      reads this
    {
      && WellFormed(claws)
      && forall id, i :: id in policies && 0 <= i < |policies[id]| ==> NormalSpec(policies[id][i])
    }

    /** Stores the record and its audit event. */
    method Commit(next: ClawRecord, action: Action)
      modifies this`claws, this`events
      ensures claws == old(claws)[next.id := next]
      ensures events == old(events) + [Audit(next.id, action, next.desired.generation)]
    {
      claws := claws[next.id := next];
      events := events + [Audit(next.id, action, next.desired.generation)];
    }

    /** Registers a newly made record unless its placement is unknown or its slug is taken. */
    method Admit(id: ClawId, made: Result<ClawRecord, string>) returns (r: Result<ClawRecord, string>)
      requires Valid() && id !in claws
      requires made.Success? ==> made.value.id == id && NormalForm(made.value)
      modifies this`claws, this`events
      ensures Valid()
      ensures r.Success? <==> made.Success? && Placeable(made.value.desired, targets) &&
                              !SlugTaken(old(claws), made.value.desired.slug)
      ensures r.Success? ==> r == made && claws == old(claws)[id := r.value] &&
                             events == old(events) + [Audit(id, CreateClaw, r.value.desired.generation)]
      ensures r.Failure? ==> claws == old(claws) && events == old(events)
    {
      r := made;
      if r.Failure? {
        return;
      }
      if !Placeable(r.value.desired, targets) {
        return Failure("deployment target is not configured");
      }
      if SlugTaken(claws, r.value.desired.slug) {
        return Failure("a claw with this slug already exists");
      }
      Commit(r.value, CreateClaw);
    }

    method Create(id: ClawId, input: Input) returns (r: Result<ClawRecord, string>)
      requires Valid() && id !in claws && UuidText(id)
      modifies this`claws, this`events
      ensures Valid()
      ensures r.Success? ==> r == CreateRecord(input, id, fleet) && claws == old(claws)[id := r.value]
      ensures r.Success? ==> Placeable(r.value.desired, targets) && !SlugTaken(old(claws), r.value.desired.slug) &&
                             events == old(events) + [Audit(id, CreateClaw, r.value.desired.generation)]
      ensures r.Failure? ==> claws == old(claws) && events == old(events)
      ensures r.Failure? && CreateRecord(input, id, fleet).Success? ==>
                var made := CreateRecord(input, id, fleet).value;
                !Placeable(made.desired, targets) || SlugTaken(old(claws), made.desired.slug)
    {
      var made := CreateRecord(input, id, fleet);
      if made.Success? {
        CreatedIsNormal(input, id, fleet);
      }
      r := Admit(id, made);
    }

    method Update(id: ClawId, patch: Patch) returns (r: Result<ClawRecord, string>)
      requires Valid()
      modifies this`claws, this`events
      ensures Valid()
      ensures id !in old(claws) ==> r.Failure?
      ensures id in old(claws) ==> r == UpdateStep(old(claws)[id], patch, targets)
      ensures claws == if r.Success? then old(claws)[id := r.value] else old(claws)
      ensures events == if claws == old(claws) then old(events)
                        else old(events) + [Audit(id, UpdateClaw, claws[id].desired.generation)]
    {
      if id !in claws {
        return Failure("claw not found");
      }
      r := UpdateStep(claws[id], patch, targets);
      if r.Failure? || r.value == claws[id] {
        return;
      }
      UpdateWrites(claws[id], patch, targets);
      WriteKeepsWellFormed(claws, id, r.value);
      Commit(r.value, UpdateClaw);
    }

    method SetClawEnabled(id: ClawId, enabled: bool) returns (r: Result<ClawRecord, string>)
      requires Valid()
      modifies this`claws, this`events
      ensures Valid()
      ensures id !in old(claws) ==> r.Failure?
      ensures id in old(claws) ==> r == EnableStep(old(claws)[id], enabled)
      ensures claws == if r.Success? then old(claws)[id := r.value] else old(claws)
      ensures events == if claws == old(claws) then old(events)
                        else old(events) + [Audit(id, EnableClaw(enabled), claws[id].desired.generation)]
    {
      if id !in claws {
        return Failure("claw not found");
      }
      r := EnableStep(claws[id], enabled);
      if r.Failure? || r.value == claws[id] {
        return;
      }
      WriteKeepsWellFormed(claws, id, r.value);
      Commit(r.value, EnableClaw(enabled));
    }

    method RotateClawCredentials(id: ClawId) returns (r: Result<ClawRecord, string>)
      requires Valid()
      modifies this`claws, this`events
      ensures Valid()
      ensures id !in old(claws) ==> r.Failure?
      ensures id in old(claws) ==> r == RotateStep(old(claws)[id])
      ensures claws == if r.Success? then old(claws)[id := r.value] else old(claws)
      ensures events == if r.Failure? then old(events)
                        else old(events) + [Audit(id, RotateClaw, claws[id].desired.generation)]
    {
      if id !in claws {
        return Failure("claw not found");
      }
      r := RotateStep(claws[id]);
      if r.Success? {
        WriteKeepsWellFormed(claws, id, r.value);
        Commit(r.value, RotateClaw);
      }
    }

    method RequestRemoval(id: ClawId, confirmation: string, now: Time) returns (r: Result<ClawRecord, string>)
      requires Valid()
      modifies this`claws, this`events
      ensures Valid()
      ensures id !in old(claws) ==> r.Failure?
      ensures id in old(claws) ==> r == RemovalStep(old(claws)[id], confirmation, now)
      ensures claws == if r.Success? then old(claws)[id := r.value] else old(claws)
      ensures r.Success? ==> Frozen(claws[id])
      ensures events == if claws == old(claws) then old(events)
                        else old(events) + [Audit(id, RemoveClaw, claws[id].desired.generation)]
    {
      if id !in claws {
        return Failure("claw not found");
      }
      r := RemovalStep(claws[id], confirmation, now);
      if r.Failure? || r.value == claws[id] {
        return;
      }
      WriteKeepsWellFormed(claws, id, r.value);
      Commit(r.value, RemoveClaw);
    }

    /** Slugs stay unique as long as the writer does not revive a deleted claw; FleetRuns shows that none does. */
    method WriteObserved(id: ClawId, observed: Observed, expected: Option<nat>, audited: bool)
      returns (r: Result<ClawRecord, string>)
      requires Valid()
      modifies this`claws, this`events
      ensures Valid() ||
              (id in old(claws) && old(claws)[id].observed.phase.Deleted? && r.Success? && !observed.phase.Deleted?)
      ensures id !in old(claws) ==> r.Failure?
      ensures id in old(claws) ==> r == WriteStep(old(claws)[id], observed, expected)
      ensures claws == if r.Success? then old(claws)[id := r.value] else old(claws)
      ensures events == if r.Success? && audited
                        then old(events) + [Audit(id, ObserveClaw, claws[id].desired.generation)] else old(events)
    {
      if id !in claws {
        return Failure("claw not found");
      }
      r := WriteStep(claws[id], observed, expected);
      if r.Success? {
        if claws[id].observed.phase.Deleted? ==> observed.phase.Deleted? {
          ObservationKeepsWellFormed(claws, id, r.value);
        }
        claws := claws[id := r.value];
        if audited {
          events := events + [Audit(id, ObserveClaw, r.value.desired.generation)];
        }
      }
    }

    method CreatePolicy(id: PolicyId, spec: PolicySpec) returns (r: Result<nat, string>)
      requires Valid() && id !in policies
      modifies this`policies
      ensures Valid()
      ensures r == if NormalizeSpec(spec).Success? then Success(1) else Failure(NormalizeSpec(spec).error)
      ensures policies == if r.Success? then old(policies)[id := [NormalizeSpec(spec).value]] else old(policies)
    {
      var normal := NormalizeSpec(spec);
      if normal.Failure? {
        return Failure(normal.error);
      }
      NormalizedSpecIsNormal(spec);
      policies := policies[id := [normal.value]];
      r := Success(1);
    }

    method AddPolicyVersion(id: PolicyId, spec: PolicySpec) returns (r: Result<nat, string>)
      requires Valid()
      modifies this`policies
      ensures Valid()
      ensures r.Success? <==> && id in old(policies) && 0 < |old(policies)[id]| < 100
                              && NormalizeSpec(spec).Success?
                              && NormalizeSpec(spec).value != old(policies)[id][|old(policies)[id]| - 1]
      ensures r.Success? ==> policies == old(policies)[id := old(policies)[id] + [NormalizeSpec(spec).value]]
      ensures r.Success? ==> r.value == |policies[id]|
      ensures r.Failure? ==> policies == old(policies)
    {
      if id !in policies || policies[id] == [] {
        return Failure("policy not found");
      }
      var versions := policies[id];
      if |versions| >= 100 {
        return Failure("policy version limit reached (100)");
      }
      var normal := NormalizeSpec(spec);
      if normal.Failure? {
        return Failure(normal.error);
      }
      if normal.value == versions[|versions| - 1] {
        return Failure("new policy version must change at least one managed field");
      }
      policies := policies[id := versions + [normal.value]];
      r := Success(|versions| + 1);
    }

    /** Reads only: what an application would change, per target. */
    method PreviewPolicy(id: PolicyId, version: nat, input: seq<string>) returns (r: Result<seq<Preview>, string>)
      requires Valid()
      ensures r.Success? <==> && id in policies && 1 <= version <= |policies[id]|
                              && ValidTargets(TrimAll(input))
                              && forall claw :: claw in TrimAll(input) ==> claw in claws && !Frozen(claws[claw])
      ensures r.Success? ==>
                && |r.value| == |input|
                && forall i :: 0 <= i < |input| ==>
                                 r.value[i] == PreviewOf(claws[TrimAll(input)[i]], policies[id][version - 1])
    {
      if id !in policies || !(1 <= version <= |policies[id]|) {
        return Failure("policy has no such version");
      }
      var spec := policies[id][version - 1];
      var ids := TrimAll(input);
      if !ValidTargets(ids) {
        return Failure("policy targets must contain unique non-empty claw ids");
      }
      r := PreviewAll(ids, claw => PreviewOf(claw, spec));
    }

    method PreviewAll(ids: seq<ClawId>, preview: ClawRecord -> Preview) returns (r: Result<seq<Preview>, string>)
      ensures r.Success? <==> forall claw :: claw in ids ==> claw in claws && !Frozen(claws[claw])
      ensures r.Success? ==>
                |r.value| == |ids| && forall i :: 0 <= i < |ids| ==> r.value[i] == preview(claws[ids[i]])
    {
      var previews: seq<Preview> := [];
      for i := 0 to |ids|
        invariant |previews| == i
        invariant forall j :: 0 <= j < i ==> ids[j] in claws && !Frozen(claws[ids[j]])
        invariant forall j :: 0 <= j < i ==> previews[j] == preview(claws[ids[j]])
      {
        if ids[i] !in claws || Frozen(claws[ids[i]]) {
          return Failure("cannot apply policy to this claw");
        }
        previews := previews + [preview(claws[ids[i]])];
      }
      r := Success(previews);
    }

    /**
     All or nothing in a transactional store.  `writes` is how many store writes succeed before one fails; `None`
     when the store does not fail.
     */
    method ApplyPolicy(
      id: PolicyId, version: nat, input: seq<string>, expected: map<ClawId, nat>, writes: Option<nat>)
      returns (r: Result<(seq<ClawRecord>, seq<ClawRecord>), string>)
      requires Valid()
      modifies this`claws, this`events
      ensures Valid()
      ensures r.Success? ==> |r.value.0| + |r.value.1| == |input|
      ensures r.Success? ==>
                && id in policies && 1 <= version <= |policies[id]|
                && Applicable(old(claws), TrimAll(input), expected, ChangeOf(id, version, policies[id][version - 1]))
                && AppliedTo(old(claws), claws, TrimAll(input), ChangeOf(id, version, policies[id][version - 1]))
                && Elsewhere(old(claws), claws, TrimAll(input))
                && r.value == (
                     Outcomes(old(claws), TrimAll(input), ChangeOf(id, version, policies[id][version - 1]), true),
                     Outcomes(old(claws), TrimAll(input), ChangeOf(id, version, policies[id][version - 1]), false))
      ensures r.Failure? && transactional ==> claws == old(claws) && events == old(events)
      ensures r.Failure? && claws != old(claws) ==>
                && id in policies && 1 <= version <= |policies[id]|
                && PartlyApplied(old(claws), claws, TrimAll(input), ChangeOf(id, version, policies[id][version - 1]))
      ensures r.Failure? && writes.None? && id in policies && 1 <= version <= |policies[id]| ==>
                !Applicable(old(claws), TrimAll(input), expected, ChangeOf(id, version, policies[id][version - 1]))
    {
      if id !in policies || !(1 <= version <= |policies[id]|) {
        return Failure("policy has no such version");
      }
      var change := ChangeOf(id, version, policies[id][version - 1]);
      var ids := TrimAll(input);
      if !ValidTargets(ids) {
        return Failure("policy targets must contain unique non-empty claw ids");
      }
      if exists claw :: claw in ids && !Fresh(claws, claw, expected) {
        return Failure("policy preview is stale");
      }
      PolicyWrites(id, version, policies[id][version - 1]);
      r := ApplyToAll(ids, change, writes);
    }

    /** The transaction around the loop. */
    method ApplyToAll(ids: seq<ClawId>, change: ClawRecord -> Result<ClawRecord, string>, writes: Option<nat>)
      returns (r: Result<(seq<ClawRecord>, seq<ClawRecord>), string>)
      requires Valid() && Writes(change) && DistinctTexts(ids)
      requires forall claw :: claw in ids ==> claw in claws && !Frozen(claws[claw])
      modifies this`claws, this`events
      ensures WellFormed(claws)
      ensures r.Success? ==> |r.value.0| + |r.value.1| == |ids| && Progress(old(claws), claws, ids, change) &&
                             r.value == (Outcomes(old(claws), ids, change, true), Outcomes(old(claws), ids, change, false))
      ensures r.Failure? && transactional ==> claws == old(claws) && events == old(events)
      ensures r.Failure? && claws != old(claws) ==> PartlyApplied(old(claws), claws, ids, change)
      ensures r.Failure? && writes.None? ==> exists claw :: claw in ids && change(old(claws)[claw]).Failure?
    {
      var claws0, events0 := claws, events;
      ghost var progress := (m: map<ClawId, ClawRecord>, i: nat) => i <= |ids| && Progress(claws0, m, ids[..i], change);
      ProgressSteps(claws0, ids, change);
      var done;
      done, r := ApplyInTurn(ids, change, writes, claws, progress);
      ProgressTells(claws0, claws, ids, done, change);
      if r.Failure? && transactional {
        claws, events := claws0, events0;
      }
    }

    /** The loop alone.  `progress(m, i)` holds of the records `m` after the first `i` targets. */
    method ApplyInTurn(
      ids: seq<ClawId>, change: ClawRecord -> Result<ClawRecord, string>, writes: Option<nat>,
      ghost before: map<ClawId, ClawRecord>, ghost progress: (map<ClawId, ClawRecord>, nat) -> bool)
      returns (done: nat, r: Result<(seq<ClawRecord>, seq<ClawRecord>), string>)
      requires progress(claws, 0) && Steps(before, ids, change, progress)
      modifies this`claws, this`events
      ensures done <= |ids| && progress(claws, done)
      ensures r.Success? ==> |r.value.0| + |r.value.1| == |ids|
      ensures r.Success? ==>
                done == |ids| && r.value == (Outcomes(before, ids, change, true), Outcomes(before, ids, change, false))
      ensures r.Failure? && writes.None? ==>
                done < |ids| && ids[done] in claws && change(claws[ids[done]]).Failure?
    {
      var updated: seq<ClawRecord> := [];
      var same: seq<ClawRecord> := [];
      var left := writes;
      done := 0;
      while done < |ids|
        invariant done <= |ids| && progress(claws, done)
        invariant |updated| + |same| == done
        invariant updated == Outcomes(before, ids[..done], change, true)
        invariant same == Outcomes(before, ids[..done], change, false)
        invariant writes.None? ==> left.None?
      {
        assert StepFrom(before, claws, done, ids, change, progress);
        NextOutcome(before, ids, done, change);
        var claw := ids[done];
        var next := change(claws[claw]);
        if next.Failure? {
          return done, Failure(next.error);
        }
        if next.value == claws[claw] {
          assert claws[claw := next.value] == claws;
          same := same + [next.value];
        } else if left == Some(0) {
          return done, Failure("the record was not stored");
        } else if left == Some(1) {
          claws := claws[claw := next.value];
          return done + 1, Failure("the record was stored, its audit event was not");
        } else {
          Commit(next.value, ApplyPolicyTo);
          left := if left.Some? then Some(left.value - 2) else None;
          updated := updated + [next.value];
        }
        done := done + 1;
      }
      assert ids[..done] == ids;
      r := Success((updated, same));
    }
  }

  /** The records that a change leaves the targets with, in order: those it alters, or those it does not. */
  ghost function Outcomes(
    before: map<ClawId, ClawRecord>, ids: seq<ClawId>, change: ClawRecord -> Result<ClawRecord, string>, altered: bool)
    : seq<ClawRecord>
  {
    if ids == [] then []
    else
      Outcomes(before, ids[..|ids| - 1], change, altered) + Outcome(before, ids[|ids| - 1], change, altered)
  }

  ghost function Outcome(
    before: map<ClawId, ClawRecord>, id: ClawId, change: ClawRecord -> Result<ClawRecord, string>, altered: bool)
    : seq<ClawRecord>
  {
    if id in before && change(before[id]).Success? && (change(before[id]).value != before[id]) == altered
    then [change(before[id]).value] else []
  }

  lemma NextOutcome(
    before: map<ClawId, ClawRecord>, ids: seq<ClawId>, n: nat, change: ClawRecord -> Result<ClawRecord, string>)
    requires n < |ids|
    ensures forall altered :: Outcomes(before, ids[..n + 1], change, altered) ==
                              Outcomes(before, ids[..n], change, altered) + Outcome(before, ids[n], change, altered)
  {
    assert ids[..n + 1][..n] == ids[..n];
  }

  /** A target's record is listed as updated exactly if the change altered it, else as unchanged. */
  lemma {:induction false} OutcomesTell(
    before: map<ClawId, ClawRecord>, ids: seq<ClawId>, change: ClawRecord -> Result<ClawRecord, string>, altered: bool)
    requires forall id :: id in ids ==>
                            && id in before && change(before[id]).Success?
                            && change(before[id]).value.id == id
    ensures forall id :: id in ids ==>
                           (change(before[id]).value in Outcomes(before, ids, change, altered) <==>
                            (change(before[id]).value != before[id]) == altered)
    ensures forall r :: r in Outcomes(before, ids, change, altered) ==>
                          r.id in ids && r == change(before[r.id]).value
  {
    if ids != [] {
      var front, last := ids[..|ids| - 1], ids[|ids| - 1];
      assert ids == front + [last] && forall id :: id in ids <==> id in front || id == last;
      OutcomesTell(before, front, change, altered);
      var listed := Outcomes(before, front, change, altered);
      assert forall r :: r in Outcomes(before, ids, change, altered) <==>
                           r in listed || r in Outcome(before, last, change, altered);
      assert forall id :: id in ids && change(before[id]).value in Outcome(before, last, change, altered) ==> id == last;
      assert forall r :: r in listed && r.id == last ==> r == change(before[last]).value && last in front;
    }
  }

  ghost predicate StepFrom(
    before: map<ClawId, ClawRecord>, m: map<ClawId, ClawRecord>, i: nat, ids: seq<ClawId>, change: ClawRecord -> Result<ClawRecord, string>,
    progress: (map<ClawId, ClawRecord>, nat) -> bool)
  {
    progress(m, i) && i < |ids| ==>
      && ids[i] in m && ids[i] in before && m[ids[i]] == before[ids[i]]
      && (change(m[ids[i]]).Success? ==>
            var next := change(m[ids[i]]).value;
            progress(m[ids[i] := next], i + 1) && next.id == ids[i])
  }

  ghost predicate Steps(
    before: map<ClawId, ClawRecord>, ids: seq<ClawId>, change: ClawRecord -> Result<ClawRecord, string>,
    progress: (map<ClawId, ClawRecord>, nat) -> bool)
  {
    forall m: map<ClawId, ClawRecord>, i: nat :: StepFrom(before, m, i, ids, change, progress)
  }

  lemma ProgressSteps(before: map<ClawId, ClawRecord>, ids: seq<ClawId>, change: ClawRecord -> Result<ClawRecord, string>)
    requires WellFormed(before) && Writes(change) && DistinctTexts(ids)
    requires forall claw :: claw in ids ==> claw in before && !Frozen(before[claw])
    ensures Progress(before, before, ids[..0], change)
    ensures Steps(before, ids, change, (m: map<ClawId, ClawRecord>, i: nat) =>
                    i <= |ids| && Progress(before, m, ids[..i], change))
  {
    forall m, i: nat | i < |ids| && Progress(before, m, ids[..i], change)
      ensures ids[i] in m && ids[i] in before && m[ids[i]] == before[ids[i]]
      ensures change(m[ids[i]]).Success? ==>
                var next := change(m[ids[i]]).value;
                Progress(before, m[ids[i] := next], ids[..i + 1], change) && next.id == ids[i]
    {
      assert ids[i] in ids && ids[i] !in ids[..i];
      if change(m[ids[i]]).Success? {
        OneMoreApplied(before, m, ids, i, change, change(m[ids[i]]).value);
      }
    }
  }

  lemma ProgressTells(
    before: map<ClawId, ClawRecord>, after: map<ClawId, ClawRecord>, ids: seq<ClawId>, done: nat,
    change: ClawRecord -> Result<ClawRecord, string>)
    requires done <= |ids| && DistinctTexts(ids) && Progress(before, after, ids[..done], change)
    ensures done == |ids| ==> Progress(before, after, ids, change)
    ensures after != before ==> PartlyApplied(before, after, ids, change)
    ensures done < |ids| && ids[done] in before ==> after[ids[done]] == before[ids[done]]
  {
    if done == 0 {
      assert after == before;
    }
    if done == |ids| {
      assert ids[..done] == ids;
    }
  }

  /** The change has reached exactly these targets. */
  ghost predicate Progress(
    before: map<ClawId, ClawRecord>, after: map<ClawId, ClawRecord>, ids: seq<ClawId>,
    change: ClawRecord -> Result<ClawRecord, string>)
  {
    WellFormed(after) && Elsewhere(before, after, ids) && AppliedTo(before, after, ids, change)
  }

  /** One more target of the loop is done. */
  lemma OneMoreApplied(
    before: map<ClawId, ClawRecord>, after: map<ClawId, ClawRecord>, ids: seq<ClawId>, i: nat,
    change: ClawRecord -> Result<ClawRecord, string>, next: ClawRecord)
    requires i < |ids| && ids[i] in before && ids[i] !in ids[..i] && !Frozen(before[ids[i]])
    requires Progress(before, after, ids[..i], change) && Writes(change)
    requires change(before[ids[i]]) == Success(next)
    ensures Progress(before, after[ids[i] := next], ids[..i + 1], change) && next.id == ids[i]
  {
    TargetsGrow(before, after, ids, i, change, next);
    WriteKeepsWellFormed(after, ids[i], next);
  }

  lemma TargetsGrow(
    before: map<ClawId, ClawRecord>, after: map<ClawId, ClawRecord>, ids: seq<ClawId>, i: nat,
    change: ClawRecord -> Result<ClawRecord, string>, next: ClawRecord)
    requires i < |ids| && ids[i] in before && Elsewhere(before, after, ids[..i]) && AppliedTo(before, after, ids[..i], change)
    requires ids[i] !in ids[..i] && change(before[ids[i]]) == Success(next)
    ensures Elsewhere(before, after[ids[i] := next], ids[..i + 1])
    ensures AppliedTo(before, after[ids[i] := next], ids[..i + 1], change)
  {
    assert ids[..i + 1] == ids[..i] + [ids[i]];
  }

  lemma PolicyWrites(policy: PolicyId, version: nat, spec: PolicySpec)
    ensures Writes(ChangeOf(policy, version, spec))
  {
    var change := ChangeOf(policy, version, spec);
    forall r | NormalForm(r) && change(r).Success?
      ensures DesiredWrite(r, change(r).value) && change(r).value.observed == r.observed
    {
      UpdateIsNormal(r, PolicyPatch(policy, version, spec));
      CleanTextPasses(r.desired.slug, 63);
    }
  }

  /** After a successful application every target's preview is empty, and applying again changes nothing. */
  lemma AppliedPreviewIsEmpty(
    before: map<ClawId, ClawRecord>, after: map<ClawId, ClawRecord>, ids: seq<ClawId>, policy: PolicyId, version: nat,
    spec: PolicySpec)
    requires WellFormed(before) && NormalSpec(spec)
    requires AppliedTo(before, after, ids, ChangeOf(policy, version, spec))
    ensures forall claw :: claw in ids ==> PreviewOf(after[claw], spec).changes == []
    ensures forall claw :: claw in ids ==> ChangeOf(policy, version, spec)(after[claw]) == Success(after[claw])
  {
    forall claw | claw in ids
      ensures PreviewOf(after[claw], spec).changes == []
      ensures ChangeOf(policy, version, spec)(after[claw]) == Success(after[claw])
    {
      ApplicationEmptiesDiff(before[claw], policy, version, spec);
      ReapplicationChangesNothing(before[claw], policy, version, spec);
    }
  }
}
