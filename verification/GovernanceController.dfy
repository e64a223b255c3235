/**
 One governed request at a time (worker/governance-controller.ts:143-247), over the governance registry and the
 coordinator tables.  GovernedRuns covers requests that overlap.
 */
module GovernanceController {
  import opened Common
  import opened Governance
  import opened GovernedRuns
  import opened ClawCoordinator
  import Tables = CoordinatorTables

  datatype Issuance =
    | ConfirmationRequired(confirmation: ConfirmationId)
    | Granted(grant: Grant)
    | Refused(error: string)

  datatype Warning = CoordinatorOutcomeNotRecorded | InvocationOutcomeNotRecorded | AuditNotRecorded

  /** `Rejected` is the 409 answer, `Threw` an error before the provider was asked. */
  datatype Answer = Rejected | Threw | Finished(ok: bool, warnings: set<Warning>)

  /** Which bookkeeping steps fail after the provider has answered. */
  datatype Faults = Faults(start: bool, finish: bool, record: bool, audit: bool)

  class GovernanceController {
    const governance: GovernanceRegistry
    const postgres: Postgres

    constructor (governance: GovernanceRegistry, postgres: Postgres)
      ensures this.governance == governance && this.postgres == postgres
    {
      this.governance, this.postgres := governance, postgres;
    }

    /** A confirmation is used up even when registering the grant then fails. */
    method IssueInvocation(
      claw: ClawId, action: Action, confirmation: Option<ConfirmationId>, newId: ConfirmationId, token: TokenId,
      invocation: InvocationId, now: Time)
      returns (r: Issuance)
      requires newId !in governance.confirmations && invocation !in governance.invocations
      modifies governance, postgres
      ensures r.ConfirmationRequired? <==> NeedsConfirmation(action.capability) && confirmation.None?
      ensures r.ConfirmationRequired? ==>
                && governance.confirmations ==
                   old(governance.confirmations)[newId := Confirmation(action, Pending, now + CONFIRMATION_TTL)]
                && governance.invocations == old(governance.invocations) && postgres.claws == old(postgres.claws)
      ensures r.Granted? ==>
                && r.grant == Grant(Claims(claw, action, confirmation, token, now + GRANT_TTL), invocation)
                && governance.invocations == old(governance.invocations)[invocation := Issued]
                && postgres.claws == old(postgres.claws)[claw := Tables.Exec(old(postgres.Rows(claw)), RegisterStatement(r.grant))]
      ensures r.Granted? && NeedsConfirmation(action.capability) ==>
                && confirmation.value in old(governance.confirmations) && confirmation.value in governance.confirmations
                && Use(old(governance.confirmations)[confirmation.value], action, now).Success?
                && governance.confirmations[confirmation.value].status.Used?
      ensures r.Refused? ==> postgres.claws == old(postgres.claws)
      ensures r.Refused? && governance.invocations != old(governance.invocations) ==> Tables.Removed(postgres.Rows(claw))
      ensures r.Refused? && governance.confirmations != old(governance.confirmations) ==>
                confirmation.Some? && confirmation.value in governance.confirmations &&
                governance.confirmations[confirmation.value].status.Used?
    {
      if NeedsConfirmation(action.capability) {
        if confirmation.None? {
          governance.CreateConfirmation(newId, action, now);
          return ConfirmationRequired(newId);
        }
        var used := governance.UseConfirmation(confirmation.value, action, now);
        if used.Failure? {
          return Refused("approved confirmation is required");
        }
      }
      var grant := Grant(Claims(claw, action, confirmation, token, now + GRANT_TTL), invocation);
      governance.SaveInvocation(invocation);
      if Tables.Removed(postgres.Rows(claw)) {
        return Refused("claw is removed");
      }
      var _ := postgres.Execute(claw, RegisterStatement(grant));
      r := Granted(grant);
    }

    /** Consumes the grant and marks the run and the invocation as running; anything short of that is an answer. */
    method Begin(claims: Claims, invocation: InvocationId, now: Time, startFails: bool) returns (r: Option<Answer>)
      modifies governance, postgres
      ensures r != Some(Answer.Rejected) <==>
              Tables.GrantMatches(old(postgres.Rows(claims.claw)), invocation, claims.token, claims.action.digest, now)
      ensures r == Some(Answer.Rejected) ==>
                postgres.Rows(claims.claw) == old(postgres.Rows(claims.claw)) &&
                governance.invocations == old(governance.invocations)
      ensures r != Some(Answer.Rejected) ==> Spent(postgres.Rows(claims.claw), invocation)
      ensures r.None? ==> RunHas(postgres.Rows(claims.claw), invocation, Tables.RunRunning) &&
                          invocation in governance.invocations && governance.invocations[invocation].Running?
      ensures r.None? || r == Some(Threw) || r == Some(Answer.Rejected)
    {
      var db := postgres.Rows(claims.claw);
      var consumed := postgres.Execute(claims.claw, Tables.ConsumeGrant(invocation, claims.token, claims.action.digest, now));
      if !consumed {
        RejectedConsumeIsIdle(db, invocation, claims.token, claims.action.digest, now);
        return Some(Answer.Rejected);
      }
      ConsumedIsSpent(db, invocation, claims.token, claims.action.digest, now);
      db := postgres.Rows(claims.claw);
      if startFails || invocation in db.runs {
        return Some(Threw);
      }
      var _ := postgres.Execute(claims.claw, Tables.StartRun(invocation, now));
      RunStarts(db, invocation, now);
      var marked := governance.UpdateInvocation(invocation, Running);
      if marked.Failure? {
        return Some(Threw);
      }
      r := None;
    }

    /** What the provider answered is what is recorded, step by step; a step that fails only leaves a warning. */
    method Record(claw: ClawId, invocation: InvocationId, ok: bool, now: Time, faults: Faults)
      returns (warnings: set<Warning>)
      requires RunHas(postgres.Rows(claw), invocation, Tables.RunRunning)
      requires invocation in governance.invocations && governance.invocations[invocation].Running?
      modifies governance, postgres
      ensures CoordinatorOutcomeNotRecorded in warnings <==> faults.finish
      ensures InvocationOutcomeNotRecorded in warnings <==> faults.record
      ensures AuditNotRecorded in warnings <==> faults.audit
      ensures old(Spent(postgres.Rows(claw), invocation)) ==> Spent(postgres.Rows(claw), invocation)
      ensures RunHas(postgres.Rows(claw), invocation,
                     if faults.finish then Tables.RunRunning else if ok then Tables.RunSucceeded else Tables.RunFailed)
      ensures governance.invocations ==
              if faults.record then old(governance.invocations)
              else old(governance.invocations)[invocation := if ok then Succeeded else Failed]
    {
      warnings := {};
      if faults.finish {
        warnings := warnings + {CoordinatorOutcomeNotRecorded};
      } else {
        RunFinishes(postgres.Rows(claw), invocation, ok, now);
        var _ := postgres.Execute(claw, Tables.FinishRun(invocation, ok, now));
      }
      if faults.record {
        warnings := warnings + {InvocationOutcomeNotRecorded};
      } else {
        var _ := governance.UpdateInvocation(invocation, if ok then Succeeded else Failed);
      }
      if faults.audit {
        warnings := warnings + {AuditNotRecorded};
      }
    }

    /**
     `#executeGithub`: the provider is asked only after the grant was consumed, and what it answered is what the
     caller is told, whatever bookkeeping fails afterwards.
     */
    method ExecuteGithub(claims: Claims, invocation: InvocationId, arguments: Digest, now: Time, ok: bool, faults: Faults)
      returns (r: Answer)
      modifies governance, postgres
      ensures r.Finished? ==>
                && Tables.GrantMatches(old(postgres.Rows(claims.claw)), invocation, claims.token, claims.action.digest, now)
                && arguments == claims.action.digest && r.ok == ok && Spent(postgres.Rows(claims.claw), invocation)
      ensures r.Finished? ==>
                && (CoordinatorOutcomeNotRecorded in r.warnings <==> faults.finish)
                && (InvocationOutcomeNotRecorded in r.warnings <==> faults.record)
                && (AuditNotRecorded in r.warnings <==> faults.audit)
      ensures r.Finished? && !faults.record ==>
                invocation in governance.invocations &&
                governance.invocations[invocation] == if ok then Succeeded else Failed
      ensures r.Finished? && !faults.finish ==>
                RunHas(postgres.Rows(claims.claw), invocation, if ok then Tables.RunSucceeded else Tables.RunFailed)
      ensures r.Rejected? ==>
                postgres.Rows(claims.claw) == old(postgres.Rows(claims.claw)) &&
                governance.invocations == old(governance.invocations)
      ensures r.Threw? && arguments == claims.action.digest ==> Spent(postgres.Rows(claims.claw), invocation)
    {
      if arguments != claims.action.digest {
        return Threw;
      }
      var early := Begin(claims, invocation, now, faults.start);
      if early.Some? {
        return early.value;
      }
      var warnings := Record(claims.claw, invocation, ok, now, faults);
      r := Finished(ok, warnings);
    }
  }

  predicate Spent(db: Tables.Database, invocation: InvocationId) {
    invocation in db.grants && db.grants[invocation].consumedAt.Some?
  }

  predicate RunHas(db: Tables.Database, invocation: InvocationId, status: Tables.RunStatus) {
    invocation in db.runs && db.runs[invocation].status == status
  }

  lemma ConsumedIsSpent(db: Tables.Database, invocation: InvocationId, token: TokenId, arguments: Digest, now: Time)
    requires Tables.GrantMatches(db, invocation, token, arguments, now)
    ensures Spent(Tables.Exec(db, Tables.ConsumeGrant(invocation, token, arguments, now)), invocation)
  {
  }

  lemma RunStarts(db: Tables.Database, invocation: InvocationId, now: Time)
    requires invocation !in db.runs
    ensures var next := Tables.Exec(db, Tables.StartRun(invocation, now));
            RunHas(next, invocation, Tables.RunRunning) && next.grants == db.grants
  {
  }

  lemma RunFinishes(db: Tables.Database, invocation: InvocationId, ok: bool, now: Time)
    requires RunHas(db, invocation, Tables.RunRunning)
    ensures var next := Tables.Exec(db, Tables.FinishRun(invocation, ok, now));
            RunHas(next, invocation, if ok then Tables.RunSucceeded else Tables.RunFailed) && next.grants == db.grants
  {
  }

  lemma RejectedConsumeIsIdle(
    db: Tables.Database, invocation: InvocationId, token: TokenId, arguments: Digest, now: Time)
    requires !Tables.GrantMatches(db, invocation, token, arguments, now)
    ensures Tables.Exec(db, Tables.ConsumeGrant(invocation, token, arguments, now)) == db
  {
    var s := Tables.ConsumeGrant(invocation, token, arguments, now);
    assert Tables.UpdateJobs(s, db.jobs) == db.jobs;
  }
}
