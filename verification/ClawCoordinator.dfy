/**
 One coordinator instance at work on the shared rows (aws/postgres-coordinator.ts, `AwsClawCoordinator`), and the
 directory that sweeps every claw (`AwsCoordinatorDirectory`).  `#serialize` runs the operations of an instance one
 after another; each method below is one of them without another instance in between.  CoordinatorRuns covers
 what survives interleaving.
 */
module ClawCoordinator {
  import opened Common
  import opened CoordinatorTables
  import opened CoordinatorRuns
  import opened CoordinatorEffects
  import opened JobSelection

  type ClawId = nat

  /** The shared tables of all claws.  A claw without rows has the empty database. */
  class Postgres {
    var claws: map<ClawId, Database>

    constructor ()
      ensures claws == map[]
    {
      claws := map[];
    }

    function Rows(claw: ClawId): Database
      reads this
    {
      if claw in claws then claws[claw] else EMPTY
    }

    /** Runs one statement or transaction and reports whether it changed a row. */
    method Execute(claw: ClawId, s: Statement) returns (took: bool)
      modifies this
      ensures claws == old(claws)[claw := Exec(old(Rows(claw)), s)]
      ensures took == Took(old(Rows(claw)), s)
    {
      took := Took(Rows(claw), s);
      claws := claws[claw := Exec(Rows(claw), s)];
    }
  }

  /** Slack's answer to a post is not under the coordinator's control. */
  method PostMessage(reply: Option<Reply>) returns (verdict: Verdict)
    ensures !verdict.Undeliverable?
  {
    verdict := *;
    if verdict.Undeliverable? || reply.None? {
      verdict := RetryableError;
    }
  }

  datatype ClaimAnswer = JobTurn(id: JobId) | JobRetry | JobNone

  datatype EnqueueAnswer = Accepted(id: JobId) | Duplicate(id: JobId) | Rejected

  class AwsClawCoordinator {
    const postgres: Postgres
    const claw: ClawId
    const owner: OwnerId
    const slackToken: bool

    constructor (postgres: Postgres, claw: ClawId, owner: OwnerId, slackToken: bool)
      ensures this.postgres == postgres && this.claw == claw && this.owner == owner && this.slackToken == slackToken
    {
      this.postgres := postgres;
      this.claw := claw;
      this.owner := owner;
      this.slackToken := slackToken;
    }

    function Rows(): Database
      reads postgres
    {
      postgres.Rows(claw)
    }

    /** No other claw's rows change. */
    twostate predicate OnlyThisClaw()
      reads postgres
    {
      forall other :: other != claw ==> postgres.Rows(other) == old(postgres.Rows(other))
    }

    /** `#enqueueTurn` */
    method EnqueueTurn(id: JobId, event: EventId, prompt: string, now: Time, expiresAt: Time)
      returns (answer: EnqueueAnswer)
      modifies postgres
      ensures Rows() == Exec(old(Rows()), Enqueue(id, event, prompt, now, expiresAt)) && OnlyThisClaw()
      ensures answer.Accepted? <==> Took(old(Rows()), Enqueue(id, event, prompt, now, expiresAt))
      ensures answer.Accepted? ==> answer.id == id
      ensures answer.Duplicate? ==> answer.id in Rows().jobs && Rows().jobs[answer.id].event == event
    {
      var took := postgres.Execute(claw, Enqueue(id, event, prompt, now, expiresAt));
      var jobs := postgres.Rows(claw).jobs;
      if took {
        answer := Accepted(id);
      } else if Removed(postgres.Rows(claw)) || !exists other :: other in jobs && jobs[other].event == event {
        answer := Rejected;
      } else {
        var other :| other in jobs && jobs[other].event == event;
        answer := Duplicate(other);
      }
    }

    /** `#claim`: `sent` says whether `#sendOffer` could send the prompt of an offer already owned. */
    method ClaimJob(runtime: RuntimeId, now: Time, sent: bool) returns (answer: ClaimAnswer)
      modifies postgres
      ensures OnlyThisClaw()
      ensures old(Offers(Rows(), runtime, now)) != {} ==>
                var offers := old(Offers(Rows(), runtime, now));
                && (sent ==> answer.JobTurn? && Oldest(old(Rows()), offers, answer.id) && Rows() == old(Rows()))
                && (!sent ==> answer == JobRetry &&
                              exists id :: Oldest(old(Rows()), offers, id) &&
                                           Rows() == Exec(old(Rows()), ReleaseOffer(id, runtime)))
      ensures old(Offers(Rows(), runtime, now)) == {} ==>
                && ClaimStep(old(Rows()), Rows(), runtime, now)
                && answer == if old(Candidates(Rows(), now)) == {} then JobNone else JobRetry
      ensures old(OneOfferEach(Rows(), now)) ==> OneOfferEach(Rows(), now)
    {
      ghost var before := Rows();
      var jobs := postgres.Rows(claw).jobs;
      var owned := Offers(postgres.Rows(claw), runtime, now);
      var waiting := Candidates(postgres.Rows(claw), now);
      if owned != {} {
        var id := SelectFirst(ByCreation, jobs, owned);
        assert Oldest(before, owned, id);
        if sent {
          answer := JobTurn(id);
        } else {
          var took := postgres.Execute(claw, ReleaseOffer(id, runtime));
          answer := JobRetry;
          if OneOfferEach(before, now) {
            OtherStatementsKeepOneOffer(before, ReleaseOffer(id, runtime), now, now);
          }
        }
        return;
      }
      if waiting == {} {
        answer := JobNone;
        return;
      }
      var id := SelectFirst(ByCreation, jobs, waiting);
      assert Oldest(before, waiting, id);
      var took := postgres.Execute(claw, Offer(id, runtime, now));
      answer := JobRetry;
      assert ClaimStep(before, Rows(), runtime, now);
      if OneOfferEach(before, now) {
        ClaimKeepsOneOffer(before, Rows(), runtime, now);
      }
    }

    /** `#start`: acknowledged when the offer was this runtime's, or when it is running here already. */
    method StartJob(id: JobId, runtime: RuntimeId, now: Time) returns (acknowledged: bool)
      modifies postgres
      ensures OnlyThisClaw() && Rows() == Exec(old(Rows()), Start(id, runtime, now))
      ensures acknowledged <==> RunningUnder(Rows(), id, runtime)
    {
      var took := postgres.Execute(claw, Start(id, runtime, now));
      UpdateIsLocal(old(Rows()), Start(id, runtime, now), id);
      acknowledged := took || RunningUnder(postgres.Rows(claw), id, runtime);
    }

    /** Posts a claimed reply and records the verdict. */
    method PostReply(job: JobId, row: Job) returns (ghost verdict: Verdict)
      modifies postgres
      ensures OnlyThisClaw() && Rows() == Exec(old(Rows()), VerdictStatement(owner, job, row.attempts, verdict))
      ensures !slackToken ==> verdict.Undeliverable?
    {
      var outcome := Undeliverable;
      if slackToken {
        outcome := PostMessage(row.response);
      }
      verdict := outcome;
      var _ := postgres.Execute(claw, VerdictStatement(owner, job, row.attempts, outcome));
    }

    /** `#deliver` */
    method Deliver(job: JobId, now: Time) returns (ghost verdict: Verdict)
      requires RowsCoherent(Rows())
      modifies postgres
      ensures OnlyThisClaw() && Rows() == DeliveredRows(old(Rows()), owner, job, now, verdict)
      ensures !slackToken ==> verdict.Undeliverable?
      ensures RowsCoherent(Rows())
    {
      verdict := Undeliverable;
      var claimed := ClaimJobReply(job, now);
      if claimed.Some? {
        verdict := PostReply(job, claimed.value);
      }
      DeliveryLightens(old(Rows()), owner, job, now, verdict);
    }

    /** The conditional UPDATE that claims a reply, and the row it returns. */
    method ClaimJobReply(job: JobId, now: Time) returns (row: Option<Job>)
      modifies postgres
      ensures OnlyThisClaw() && Rows() == Exec(old(Rows()), ClaimReply(job, owner, now))
      ensures row.Some? <==> Took(old(Rows()), ClaimReply(job, owner, now))
      ensures row.Some? ==> job in old(Rows()).jobs && row.value.attempts == old(Rows()).jobs[job].attempts
      ensures row.None? ==> Rows() == old(Rows())
    {
      var took := postgres.Execute(claw, ClaimReply(job, owner, now));
      UpdateIsLocal(old(Rows()), ClaimReply(job, owner, now), job);
      row := if took then Some(postgres.Rows(claw).jobs[job]) else None;
    }

    /** `#failJob` and `#expireJob`: settle the job if it is still in the expected state, then deliver the answer. */
    method SettleAndDeliver(s: Statement, job: JobId, now: Time) returns (took: bool, ghost verdict: Verdict)
      requires RowsCoherent(Rows())
      requires (s.FailRunning? || s.Expire?) && Target(s) == Some(job) && s.now == now
      modifies postgres
      ensures OnlyThisClaw() && RowsCoherent(Rows())
      ensures took <==> job in old(Rows()).jobs && Where(s, job, old(Rows()).jobs[job])
      ensures Rows() == if took then DeliveredRows(Exec(old(Rows()), s), owner, job, now, verdict) else old(Rows())
      ensures took ==> Handled(old(Rows()), Rows(), now, {job})
    {
      took := postgres.Execute(claw, s);
      UpdateIsLocal(old(Rows()), s, job);
      verdict := Undeliverable;
      if took {
        ExecKeepsCoherence(old(Rows()), s);
        verdict := Deliver(job, now);
        SettlingHandles(old(Rows()), s, owner, job, now, verdict);
      }
    }

    /** `#complete` */
    method CompleteJob(id: JobId, runtime: RuntimeId, ok: bool, output: string, now: Time, error: string)
      returns (acknowledged: bool, ghost verdict: Verdict)
      requires RowsCoherent(Rows())
      modifies postgres
      ensures OnlyThisClaw() && RowsCoherent(Rows())
      ensures acknowledged <==>
              || old(RunningUnder(Rows(), id, runtime))
              || (id in old(Rows()).jobs && !Active(old(Rows()).jobs[id]) && old(Rows()).jobs[id].runtime == Some(runtime))
      ensures old(RunningUnder(Rows(), id, runtime)) ==>
                Rows() == DeliveredRows(Exec(old(Rows()), Complete(id, runtime, ok, output, now, error)),
                                        owner, id, now, verdict)
      ensures !old(RunningUnder(Rows(), id, runtime)) ==>
                Rows() == old(Rows()) || Rows() == DeliveredRows(old(Rows()), owner, id, now, verdict)
    {
      verdict := Undeliverable;
      var jobs := postgres.Rows(claw).jobs;
      if id in jobs && !Active(jobs[id]) && jobs[id].runtime == Some(runtime) {
        if jobs[id].delivery.Undelivered? {
          verdict := Deliver(id, now);
        }
        return true, verdict;
      }
      if id !in jobs || !jobs[id].status.Running? || jobs[id].runtime != Some(runtime) {
        return false, verdict;
      }
      var s := Complete(id, runtime, ok, output, now, error);
      var took := postgres.Execute(claw, s);
      UpdateIsLocal(old(Rows()), s, id);
      ExecKeepsCoherence(old(Rows()), s);
      verdict := Deliver(id, now);
      acknowledged := true;
    }

    /** `prepareForRemoval`: one transaction. */
    method PrepareForRemoval(now: Time, error: string)
      modifies postgres
      ensures OnlyThisClaw() && Rows() == Exec(old(Rows()), Remove(now, error))
      ensures Tombstoned(Rows()) && Generation(Rows()) > Generation(old(Rows()))
    {
      RemovalTombstones(Rows(), now, error);
      var took := postgres.Execute(claw, Remove(now, error));
    }

    /** `consumeGrant` */
    method ConsumeOnce(invocation: InvocationId, jti: TokenId, digest: string, now: Time) returns (consumed: bool)
      modifies postgres
      ensures OnlyThisClaw() && Rows() == Exec(old(Rows()), ConsumeGrant(invocation, jti, digest, now))
      ensures consumed <==> GrantMatches(old(Rows()), invocation, jti, digest, now)
      ensures consumed ==> forall later: Time :: !GrantMatches(Rows(), invocation, jti, digest, later)
    {
      consumed := postgres.Execute(claw, ConsumeGrant(invocation, jti, digest, now));
    }

    method SettleOne(id: JobId, overdue: bool, now: Time)
      requires RowsCoherent(Rows()) && id in Rows().jobs
      requires if overdue then Rows().jobs[id].status.Running? else Waiting(Rows().jobs[id])
      modifies postgres
      ensures OnlyThisClaw() && RowsCoherent(Rows()) && Handled(old(Rows()), Rows(), now, {id})
    {
      var s := if overdue then FailRunning(id, now, "runtime turn timed out") else Expire(id, now);
      var took, verdict := SettleAndDeliver(s, id, now);
    }

    method DeliverOne(id: JobId, now: Time)
      requires RowsCoherent(Rows()) && id in Deliverable(Rows(), now)
      modifies postgres
      ensures OnlyThisClaw() && RowsCoherent(Rows()) && Handled(old(Rows()), Rows(), now, {id})
    {
      var verdict := Deliver(id, now);
      DeliveringHandles(old(Rows()), owner, id, now, verdict);
    }

    /** The sweep's loops over jobs to fail or expire. */
    method SettleBatch(ids: seq<JobId>, overdue: bool, now: Time)
      requires RowsCoherent(Rows()) && Distinct(ids) && Elements(ids) <= Rows().jobs.Keys
      requires forall id :: id in Elements(ids) ==>
                              if overdue then Rows().jobs[id].status.Running? else Waiting(Rows().jobs[id])
      modifies postgres
      ensures OnlyThisClaw() && RowsCoherent(Rows())
      ensures Handled(old(Rows()), Rows(), now, Elements(ids))
    {
      for i := 0 to |ids|
        invariant OnlyThisClaw() && RowsCoherent(Rows())
        invariant Handled(old(Rows()), Rows(), now, Elements(ids[..i]))
      {
        ghost var mid := Rows();
        var id := ids[i];
        assert id in Elements(ids) && id !in Elements(ids[..i]);
        SettleOne(id, overdue, now);
        HandledOneMore(old(Rows()), mid, Rows(), now, Elements(ids[..i]), id);
        assert Elements(ids[..i + 1]) == Elements(ids[..i]) + {id};
      }
      assert ids[..|ids|] == ids;
    }

    /** The sweep's loop over replies to deliver. */
    method DeliverBatch(ids: seq<JobId>, now: Time)
      requires RowsCoherent(Rows()) && Distinct(ids) && Elements(ids) <= Deliverable(Rows(), now)
      modifies postgres
      ensures OnlyThisClaw() && RowsCoherent(Rows())
      ensures Handled(old(Rows()), Rows(), now, Elements(ids))
    {
      for i := 0 to |ids|
        invariant OnlyThisClaw() && RowsCoherent(Rows())
        invariant Handled(old(Rows()), Rows(), now, Elements(ids[..i]))
      {
        ghost var mid := Rows();
        var id := ids[i];
        assert id in Elements(ids) && id !in Elements(ids[..i]);
        DeliverOne(id, now);
        HandledOneMore(old(Rows()), mid, Rows(), now, Elements(ids[..i]), id);
        assert Elements(ids[..i + 1]) == Elements(ids[..i]) + {id};
      }
      assert ids[..|ids|] == ids;
    }

    method ReleaseStaleOffers(now: Time)
      requires RowsCoherent(Rows())
      modifies postgres
      ensures OnlyThisClaw() && RowsCoherent(Rows()) && JobsReleased(old(Rows()), Rows(), now)
    {
      ReleasedJobs(Rows(), now);
      ExecKeepsCoherence(Rows(), ReleaseStale(now - OFFER_LEASE));
      var took := postgres.Execute(claw, ReleaseStale(now - OFFER_LEASE));
    }

    /** The sweep's first two loops: what is overdue or too late is settled. */
    method SettleDue(now: Time) returns (stalled: seq<JobId>, expired: seq<JobId>)
      requires RowsCoherent(Rows())
      modifies postgres
      ensures OnlyThisClaw() && RowsCoherent(Rows())
      ensures IsBatch(ByClaim, old(Rows()).jobs, OverdueRunning(old(Rows()), now), CLEANUP_BATCH, stalled)
      ensures IsBatch(ByExpiry, old(Rows()).jobs, ExpiredWaiting(old(Rows()), now), CLEANUP_BATCH, expired)
      ensures Handled(old(Rows()), Rows(), now, Elements(stalled) + Elements(expired))
    {
      ghost var released := Rows();
      var overdue := OverdueRunning(postgres.Rows(claw), now);
      stalled := SelectBatch(ByClaim, postgres.Rows(claw).jobs, overdue, CLEANUP_BATCH);
      BatchIsDistinct(ByClaim, released.jobs, overdue, CLEANUP_BATCH, stalled);
      SettleBatch(stalled, true, now);
      ghost var failed := Rows();
      HandledKeepsExpired(released, failed, now, Elements(stalled));

      var late := ExpiredWaiting(postgres.Rows(claw), now);
      expired := SelectBatch(ByExpiry, postgres.Rows(claw).jobs, late, CLEANUP_BATCH);
      BatchIsDistinct(ByExpiry, failed.jobs, late, CLEANUP_BATCH, expired);
      BatchTransfers(ByExpiry, failed.jobs, released.jobs, late, CLEANUP_BATCH, expired);
      SettleBatch(expired, false, now);
      HandledTogether(released, failed, Rows(), now, Elements(stalled), Elements(expired));
    }

    /** Its third loop: replies that are due are delivered. */
    method DeliverDue(now: Time) returns (delivered: seq<JobId>)
      requires RowsCoherent(Rows())
      modifies postgres
      ensures OnlyThisClaw() && RowsCoherent(Rows())
      ensures IsBatch(ByCompletion, old(Rows()).jobs, Deliverable(old(Rows()), now), DELIVERY_BATCH, delivered)
      ensures Handled(old(Rows()), Rows(), now, Elements(delivered))
    {
      var due := Deliverable(postgres.Rows(claw), now);
      delivered := SelectBatch(ByCompletion, postgres.Rows(claw).jobs, due, DELIVERY_BATCH);
      BatchIsDistinct(ByCompletion, postgres.Rows(claw).jobs, due, DELIVERY_BATCH, delivered);
      DeliverBatch(delivered, now);
    }

    /** `cleanupSweep`, up to the deliveries. */
    method SweepJobs(now: Time) returns (ghost w: Sweep)
      requires RowsCoherent(Rows())
      modifies postgres
      ensures OnlyThisClaw() && RowsCoherent(Rows())
      ensures SweepWork(old(Rows()), now, w) && Rows() == w.swept
    {
      ghost var before := Rows();
      ReleaseStaleOffers(now);
      ghost var released := Rows();
      DueSetsSurvive(before, released, now);
      var stalled, expired := SettleDue(now);
      ghost var settled := Rows();
      BatchTransfers(ByClaim, released.jobs, before.jobs, OverdueRunning(released, now), CLEANUP_BATCH, stalled);
      BatchTransfers(ByExpiry, released.jobs, before.jobs, ExpiredWaiting(released, now), CLEANUP_BATCH, expired);
      var delivered := DeliverDue(now);
      w := Sweep(released, stalled, expired, settled, delivered, Rows());
    }

    /** `cleanupSweep` */
    method CleanupSweep(now: Time) returns (ghost w: Sweep)
      requires RowsCoherent(Rows())
      modifies postgres
      ensures OnlyThisClaw() && RowsCoherent(Rows())
      ensures SweepStep(old(Rows()), Rows(), now, w)
      ensures Rows() == Retained(w.swept, now)
    {
      w := SweepJobs(now);
      CloseSweep(now);
    }

    /** The sweep's closing deletes and time-outs. */
    method CloseSweep(now: Time)
      requires RowsCoherent(Rows())
      modifies postgres
      ensures OnlyThisClaw() && Rows() == Retained(old(Rows()), now)
      ensures JobsRetained(old(Rows()), Rows(), now) && RowsCoherent(Rows())
    {
      RetainedJobs(Rows(), now);
      var took := postgres.Execute(claw, PruneGrants(now));
      took := postgres.Execute(claw, PruneRefreshes(now));
      took := postgres.Execute(claw, PruneTickets(now));
      took := postgres.Execute(claw, TimeOutRuns(now - RUNNING_TIMEOUT, now));
      took := postgres.Execute(claw, PruneRuns(now - RUN_RETENTION));
      took := postgres.Execute(claw, PruneJobs(now - JOB_RETENTION));
    }
  }
}
