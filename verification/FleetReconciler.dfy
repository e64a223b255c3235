/**
 The reconciler at work on the registry without interference (src/reconciler.ts:64-447): step by step it does what
 `Reconciler.Plan` and `Reconciler.ProvisionPlan` say.  FleetRuns covers interference.
 */
module FleetReconciler {
  import opened Common
  import opened ClawRecords
  import opened FleetRegistry
  import opened Reconciler

  /** The record after its compare-and-swap write. */
  function Stored(r: ClawRecord, observed: Observed): ClawRecord {
    r.(revision := r.revision + 1, observed := observed)
  }

  /** The record after one undisturbed reconciliation. */
  function Reconciled(r: ClawRecord, a: Answers, quiet: Time): ClawRecord {
    match Plan(r, a, quiet)
    case NoWrite => r
    case Write(observed, _) => Stored(r, observed)
    case Announce(observed) =>
      var announced := Stored(r, observed);
      match ProvisionPlan(announced, if Routed(r.desired) && a.route.Answered? then Some(a.route.value) else None, a)
      case Write(final, _) => Stored(announced, final)
      case NoWrite => announced
      case Announce(_) => announced
  }

  ghost predicate ReconciledTo(r: ClawRecord, a: Answers, quiet: Time, next: ClawRecord) {
    next == Reconciled(r, a, quiet)
  }

  /** How far a pass has come: the claws already reconciled, and the rest as before. */
  ghost predicate Passed(
    before: map<ClawId, ClawRecord>, pass: map<ClawId, ClawRecord>, now: map<ClawId, ClawRecord>, done: set<ClawId>)
    requires pass.Keys == before.Keys
  {
    && now.Keys == before.Keys
    && forall id :: id in before ==> now[id] == if id in done then pass[id] else before[id]
  }

  lemma PassedOneMore(
    before: map<ClawId, ClawRecord>, pass: map<ClawId, ClawRecord>, now: map<ClawId, ClawRecord>, done: set<ClawId>,
    id: ClawId)
    requires pass.Keys == before.Keys && id in before && Passed(before, pass, now, done)
    ensures Passed(before, pass, now[id := pass[id]], done + {id})
  {
  }

  predicate Distinct(ids: seq<ClawId>) { forall i, j :: 0 <= i < j < |ids| ==> ids[i] != ids[j] }

  function Listed(ids: seq<ClawId>): set<ClawId> { set id | id in ids }

  lemma NextIsListed(ids: seq<ClawId>, n: nat)
    requires n < |ids|
    ensures Listed(ids[..n + 1]) == Listed(ids[..n]) + {ids[n]} && (Distinct(ids) ==> ids[n] !in Listed(ids[..n]))
  {
    assert ids[..n + 1] == ids[..n] + [ids[n]];
  }

  class CrabhelmReconciler {
    const registry: CrabhelmRegistry
    const quiet: Time
    var running: bool

    constructor (registry: CrabhelmRegistry, quiet: Time)
      ensures this.registry == registry && this.quiet == quiet && !running
    {
      this.registry, this.quiet, this.running := registry, quiet, false;
    }

    /** The caller's copy is as recent as the stored record, which is not deleted. */
    predicate Held(claw: ClawRecord)
      reads registry
    {
      && claw.id in registry.claws && registry.claws[claw.id].revision == claw.revision
      && registry.claws[claw.id].id == claw.id && !registry.claws[claw.id].observed.phase.Deleted?
    }

    /** `#writeObserved`: guarded by the revision of the record the caller holds. */
    method WriteOwn(claw: ClawRecord, observed: Observed, audited: bool) returns (next: ClawRecord)
      requires registry.Valid() && Held(claw)
      modifies registry
      ensures registry.Valid() && next == Stored(old(registry.claws)[claw.id], observed)
      ensures registry.claws == old(registry.claws)[claw.id := next]
      ensures registry.policies == old(registry.policies)
    {
      var r := registry.WriteObserved(claw.id, observed, Some(claw.revision), audited);
      next := r.value;
    }

    /** The deletion stages; `Broken` answers are the exceptions that the caller turns into attention. */
    method AdvanceDeletion(claw: ClawRecord, a: Answers) returns (next: Result<Observed, string>)
      requires claw.observed.deletion.Some?
      ensures next.Success? ==> exists note :: DeletionPlan(claw, a, quiet) == Write(next.value, note)
      ensures next.Failure? ==> DeletionPlan(claw, a, quiet) == FailureWrite(claw)
    {
      var o := claw.observed;
      var d := o.deletion.value;
      var at := a.clock.attemptAt;
      if d.stage.DisableStage? || d.stage.DrainStage? {
        if a.inspect.Broken? {
          return Failure("provider inspection failed");
        }
        if a.inspect.WorkspaceFailed? && d.stage.DisableStage? {
          return Success(o.(phase := Deleting, health := Offline,
                         deletion := Some(d.(stage := DrainStage, lastAttemptAt := Some(at)))));
        }
        if a.inspect.Answered? && a.inspect.value.absent {
          return Success(AbsentWrite(claw, a.clock.decidedAt).observed);
        }
      }
      match d.stage {
        case DisableStage =>
          if !a.disable.Answered? || !a.disable.value.applied {
            return Failure("child disable was not applied");
          }
          next := Success(Spread(o, a.disable.value.result).(
            phase := Deleting, deletion := Some(d.(stage := DrainStage, lastAttemptAt := Some(at)))));
        case DrainStage =>
          if !a.drain.Answered? {
            return Failure("child drain could not be verified");
          }
          var after := d.(lastAttemptAt := Some(at));
          if !a.drain.value {
            after := after.(drainedAt := None);
          } else if d.drainedAt.None? {
            after := after.(drainedAt := Some(a.clock.observedAt));
          } else if a.clock.decidedAt - d.drainedAt.value >= quiet {
            after := after.(stage := ReleaseStage);
          }
          next := Success(o.(phase := Deleting, deletion := Some(after)));
        case ReleaseStage | ConfirmStage =>
          if !a.remove.Answered? {
            return Failure("provider removal failed");
          }
          if a.remove.value {
            return Success(AbsentWrite(claw, a.clock.decidedAt).observed);
          }
          next := Success(o.(phase := Deleting, deletion := Some(d.(stage := ConfirmStage, lastAttemptAt := Some(at)))));
        case RevokeStage =>
          if a.revoke.Answered? && (a.revoke.value.alreadyAbsent || a.revoke.value.removedPairedDevice ||
                                    a.revoke.value.rejectedPendingRequest) {
            return Success(DeletedWrite(claw).observed);
          }
          next := Failure("native parent pairing absence was not confirmed");
      }
    }

    /** Everything but the provisioning of a new workspace, which takes two writes. */
    method Advance(claw: ClawRecord, route: Option<Route>, a: Answers) returns (observed: Observed, audited: bool)
      requires !PlanRouted(claw, route, a, quiet).Announce?
      ensures exists note :: PlanRouted(claw, route, a, quiet) == Write(observed, note)
    {
      if claw.observed.deletion.Some? {
        var advanced := AdvanceDeletion(claw, a);
        observed := if advanced.Success? then advanced.value else FailureWrite(claw).observed;
        audited := advanced.Failure? || observed.phase.Deleted?;
      } else if !claw.desired.enabled {
        if a.disable.Answered? && a.disable.value.applied {
          observed := Spread(claw.observed, a.disable.value.result);
          observed, audited := observed.(generation := claw.desired.generation, phase := Disabled), false;
        } else {
          observed, audited := FailureWrite(claw).observed, true;
        }
      } else {
        observed, audited := InspectPlan(claw, route, a).observed, !a.inspect.Answered? || a.inspect.value.absent;
      }
    }

    method AdvanceOne(claw: ClawRecord, route: Option<Route>, a: Answers) returns (next: ClawRecord)
      requires registry.Valid() && Held(claw) && PlanRouted(claw, route, a, quiet).Write?
      modifies registry
      ensures registry.Valid() && registry.policies == old(registry.policies)
      ensures next == Stored(old(registry.claws)[claw.id], PlanRouted(claw, route, a, quiet).observed)
      ensures registry.claws == old(registry.claws)[claw.id := next]
    {
      var observed, audited := Advance(claw, route, a);
      next := WriteOwn(claw, observed, audited);
    }

    /** Announces the new workspace before it asks the provider for one. */
    method ProvisionOne(claw: ClawRecord, route: Option<Route>, a: Answers) returns (next: ClawRecord)
      requires registry.Valid() && Held(claw)
      modifies registry
      ensures registry.Valid() && registry.policies == old(registry.policies)
      ensures var announced := Stored(old(registry.claws)[claw.id], claw.observed.(phase := Provisioning));
              next == Stored(announced, ProvisionPlan(announced, route, a).observed)
      ensures registry.claws == old(registry.claws)[claw.id := next]
    {
      var announced := WriteOwn(claw, claw.observed.(phase := Provisioning), false);
      var final := ProvisionPlan(announced, route, a).observed;
      next := WriteOwn(announced, final, final.phase.Ready? || !a.provision.Answered?);
    }

    /** `#reconcileOne` */
    method ReconcileOne(id: ClawId, a: Answers) returns (r: Result<ClawRecord, string>)
      requires registry.Valid()
      modifies registry
      ensures registry.Valid() && registry.policies == old(registry.policies)
      ensures id !in old(registry.claws) ==> r.Failure? && registry.claws == old(registry.claws)
      ensures id in old(registry.claws) ==>
                && r == Success(Reconciled(old(registry.claws)[id], a, quiet))
                && registry.claws == old(registry.claws)[id := r.value]
    {
      if id !in registry.claws {
        return Failure("claw not found");
      }
      var claw := registry.claws[id];
      if claw.observed.phase.Deleted? {
        return Success(claw);
      }
      if Routed(claw.desired) && !a.route.Answered? {
        var failed := WriteOwn(claw, FailureWrite(claw).observed, true);
        return Success(failed);
      }
      var route := if Routed(claw.desired) then Some(a.route.value) else None;
      claw := WithRoute(claw, route);
      var next;
      if claw.observed.deletion.None? && claw.desired.enabled && claw.observed.lifecycle.None? {
        next := ProvisionOne(claw, route, a);
      } else {
        next := AdvanceOne(claw, route, a);
      }
      r := Success(next);
    }

    method ReconcileListed(id: ClawId, a: Answers, ghost next: ClawRecord)
      requires registry.Valid() && id in registry.claws && ReconciledTo(registry.claws[id], a, quiet, next)
      modifies registry
      ensures registry.Valid() && registry.claws == old(registry.claws)[id := next]
    {
      var _ := ReconcileOne(id, a);
    }

    method ReconcileEach(ids: seq<ClawId>, answers: ClawId -> Answers, ghost pass: map<ClawId, ClawRecord>)
      requires registry.Valid() && pass.Keys == registry.claws.Keys
      requires Distinct(ids)
      requires forall i :: 0 <= i < |ids| ==>
                             ids[i] in registry.claws &&
                             ReconciledTo(registry.claws[ids[i]], answers(ids[i]), quiet, pass[ids[i]])
      modifies registry
      ensures registry.Valid() && Passed(old(registry.claws), pass, registry.claws, Listed(ids))
    {
      ghost var before := registry.claws;
      for i := 0 to |ids|
        invariant registry.Valid() && Passed(before, pass, registry.claws, Listed(ids[..i]))
      {
        NextIsListed(ids, i);
        PassedOneMore(before, pass, registry.claws, Listed(ids[..i]), ids[i]);
        ReconcileListed(ids[i], answers(ids[i]), pass[ids[i]]);
      }
      assert ids[..|ids|] == ids;
    }

    /** `reconcileAll`: one pass over the given claws; a pass that finds another one running does nothing. */
    method ReconcileAll(ids: seq<ClawId>, answers: ClawId -> Answers)
      requires registry.Valid() && this != registry as object
      requires Distinct(ids) && forall id :: id in ids ==> id in registry.claws
      modifies registry, this`running
      ensures registry.Valid() && running == old(running)
      ensures old(running) ==> registry.claws == old(registry.claws)
      ensures !old(running) ==>
                && registry.claws.Keys == old(registry.claws).Keys
                && (forall id :: id in registry.claws ==>
                                   registry.claws[id] ==
                                   if id in ids then Reconciled(old(registry.claws)[id], answers(id), quiet)
                                   else old(registry.claws)[id])
    {
      if running {
        return;
      }
      running := true;
      ghost var before := registry.claws;
      ghost var pass := map id | id in before :: Reconciled(before[id], answers(id), quiet);
      ReconcileEach(ids, answers, pass);
      running := false;
    }
  }
}
