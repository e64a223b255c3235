/**
 What one uninterrupted coordinator operation does to the rows: delivery attempts, claims and the cleanup sweep
 (aws/postgres-coordinator.ts:519-579, 720-759, 987-1113), and the measure that repeated sweeps run down.
 */
module CoordinatorEffects {
  import opened Common
  import opened CoordinatorTables
  import opened CoordinatorRuns
  import opened JobSelection

  // ---------- The amount of work left in a job table ----------

  /** An active job counts one more than its five possible posts. */
  function Weight(row: Job): nat {
    if Active(row) then MAX_ATTEMPTS + 1
    else if AwaitingDelivery(row) && row.attempts < MAX_ATTEMPTS then MAX_ATTEMPTS - row.attempts
    else 0
  }

  ghost function WeightOf(jobs: map<JobId, Job>, ids: set<JobId>): nat
    requires ids <= jobs.Keys
  {
    if ids == {} then 0 else var id :| id in ids; Weight(jobs[id]) + WeightOf(jobs, ids - {id})
  }

  ghost function Measure(db: Database): nat { WeightOf(db.jobs, db.jobs.Keys) }

  lemma {:induction false} WeightOfRemove(jobs: map<JobId, Job>, ids: set<JobId>, id: JobId)
    requires ids <= jobs.Keys && id in ids
    ensures WeightOf(jobs, ids) == Weight(jobs[id]) + WeightOf(jobs, ids - {id})
    decreases ids
  {
    var first :| first in ids && WeightOf(jobs, ids) == Weight(jobs[first]) + WeightOf(jobs, ids - {first});
    if first != id {
      WeightOfRemove(jobs, ids - {first}, id);
      WeightOfRemove(jobs, ids - {id}, first);
      assert ids - {first} - {id} == ids - {id} - {first};
    }
  }

  /** No row weighs more than before, and no row is new. */
  ghost predicate Lighter(before: map<JobId, Job>, after: map<JobId, Job>) {
    && after.Keys <= before.Keys
    && (forall id :: id in after ==> Weight(after[id]) <= Weight(before[id]))
  }

  ghost predicate Lightened(before: map<JobId, Job>, after: map<JobId, Job>, id: JobId) {
    id in before && Weight(before[id]) > 0 && (id in after ==> Weight(after[id]) < Weight(before[id]))
  }

  lemma {:induction false} LighterWeighsLess(
    before: map<JobId, Job>, after: map<JobId, Job>, ids: set<JobId>, lightened: set<JobId>)
    requires Lighter(before, after) && ids <= before.Keys
    requires lightened <= ids && forall id :: id in lightened ==> Lightened(before, after, id)
    ensures WeightOf(after, ids * after.Keys) + |lightened| <= WeightOf(before, ids)
    decreases ids
  {
    if ids == {} {
      assert lightened == {};
    } else {
      var id :| id in ids;
      LighterWeighsLess(before, after, ids - {id}, lightened - {id});
      WeightOfRemove(before, ids, id);
      RestWeighs(after, ids, id);
      assert id in lightened ==> |lightened - {id}| + 1 == |lightened|;
      assert id !in lightened ==> lightened - {id} == lightened;
    }
  }

  lemma RestWeighs(after: map<JobId, Job>, ids: set<JobId>, id: JobId)
    requires id in ids
    ensures WeightOf(after, ids * after.Keys)
         == WeightOf(after, (ids - {id}) * after.Keys) + if id in after then Weight(after[id]) else 0
  {
    if id in after {
      WeightOfRemove(after, ids * after.Keys, id);
      assert ids * after.Keys - {id} == (ids - {id}) * after.Keys;
    } else {
      assert ids * after.Keys == (ids - {id}) * after.Keys;
    }
  }

  /** Every lightened row takes at least one unit off the measure. */
  lemma MeasureFalls(before: Database, after: Database, lightened: set<JobId>)
    requires Lighter(before.jobs, after.jobs)
    requires forall id :: id in lightened ==> Lightened(before.jobs, after.jobs, id)
    ensures Measure(after) + |lightened| <= Measure(before)
  {
    LighterWeighsLess(before.jobs, after.jobs, before.jobs.Keys, lightened);
    assert before.jobs.Keys * after.jobs.Keys == after.jobs.Keys;
  }

  lemma MeasureFallsAt(before: Database, after: Database, id: JobId)
    requires Lighter(before.jobs, after.jobs) && Lightened(before.jobs, after.jobs, id)
    ensures Measure(after) < Measure(before)
  {
    MeasureFalls(before, after, {id});
  }

  // ---------- Effects of the operations ----------

  /** Only one row of the job table differs. */
  ghost predicate OnlyJob(before: Database, after: Database, job: JobId) {
    && after == before.(jobs := after.jobs)
    && after.jobs.Keys == before.jobs.Keys
    && forall id :: id in before.jobs && id != job ==> after.jobs[id] == before.jobs[id]
  }

  lemma WhereIsTargeted(s: Statement, id: JobId, row: Job)
    requires Target(s).Some? && Target(s) != Some(id)
    ensures !Where(s, id, row)
  {
  }

  lemma TargetedJobs(db: Database, s: Statement)
    requires Target(s).Some?
    ensures JobsAfter(db, s) == UpdateJobs(s, db.jobs)
  {
  }

  lemma TargetedCredentials(db: Database, s: Statement)
    requires Target(s).Some?
    ensures ClawAfter(db, s) == db.claw && GrantsAfter(db, s) == db.grants && TicketsAfter(db, s) == db.tickets
    ensures RefreshesAfter(db, s) == db.refreshes && RunsAfter(db, s) == db.runs
  {
  }

  lemma TargetedOnlyTouchesJobs(db: Database, s: Statement)
    requires Target(s).Some?
    ensures Exec(db, s) == db.(jobs := UpdateJobs(s, db.jobs))
  {
    TargetedJobs(db, s);
    TargetedCredentials(db, s);
  }

  lemma TargetedTakes(db: Database, s: Statement, job: JobId)
    requires Target(s) == Some(job)
    ensures Took(db, s) <==> job in db.jobs && Where(s, job, db.jobs[job])
  {
    forall id | id in db.jobs && id != job ensures !Where(s, id, db.jobs[id]) {
      WhereIsTargeted(s, id, db.jobs[id]);
    }
  }

  lemma UpdateJobsLocally(jobs: map<JobId, Job>, s: Statement, job: JobId)
    requires Target(s) == Some(job)
    ensures UpdateJobs(s, jobs) == if job in jobs then jobs[job := UpdateRow(s, job, jobs[job])] else jobs
  {
    forall id | id in jobs && id != job ensures !Where(s, id, jobs[id]) {
      WhereIsTargeted(s, id, jobs[id]);
    }
  }

  lemma UpdateIsLocal(db: Database, s: Statement, job: JobId)
    requires Target(s) == Some(job)
    ensures OnlyJob(db, Exec(db, s), job)
    ensures job in db.jobs ==> Exec(db, s).jobs[job] == UpdateRow(s, job, db.jobs[job])
    ensures Took(db, s) <==> job in db.jobs && Where(s, job, db.jobs[job])
    ensures !Took(db, s) ==> Exec(db, s) == db
  {
    TargetedOnlyTouchesJobs(db, s);
    TargetedTakes(db, s, job);
    UpdateJobsLocally(db.jobs, s, job);
    LocalUpdate(db, s, job, UpdateJobs(s, db.jobs));
  }

  lemma LocalUpdate(db: Database, s: Statement, job: JobId, jobs: map<JobId, Job>)
    requires jobs == if job in db.jobs then db.jobs[job := UpdateRow(s, job, db.jobs[job])] else db.jobs
    ensures OnlyJob(db, db.(jobs := jobs), job)
    ensures job in db.jobs ==> jobs[job] == UpdateRow(s, job, db.jobs[job])
    ensures !(job in db.jobs && Where(s, job, db.jobs[job])) ==> jobs == db.jobs
  {
  }

  /** What one delivery attempt by this owner does, given Slack's verdict. */
  function DeliveredRows(db: Database, owner: OwnerId, job: JobId, now: Time, verdict: Verdict): Database {
    var claim := ClaimReply(job, owner, now);
    if Took(db, claim) && job in db.jobs
    then Exec(Exec(db, claim), VerdictStatement(owner, job, db.jobs[job].attempts, verdict))
    else db
  }

  /** A delivery attempt that claims the reply ends the lease and spends an attempt or the whole reply. */
  lemma DeliveryLightens(db: Database, owner: OwnerId, job: JobId, now: Time, verdict: Verdict)
    requires RowsCoherent(db)
    ensures var after := DeliveredRows(db, owner, job, now, verdict);
            && RowsCoherent(after) && OnlyJob(db, after, job)
            && (Took(db, ClaimReply(job, owner, now)) ==>
                  && Lightened(db.jobs, after.jobs, job)
                  && after.jobs[job].status == db.jobs[job].status
                  && after.jobs[job].completedAt == db.jobs[job].completedAt
                  && !after.jobs[job].delivery.Delivering?
                  && (verdict.Posted? <==> after.jobs[job].delivery.Delivered?)
                  && (after.jobs[job].delivery.Undelivered? <==>
                        verdict.RetryableError? && db.jobs[job].attempts + 1 < MAX_ATTEMPTS))
            && (!Took(db, ClaimReply(job, owner, now)) ==> after == db)
  {
    var claim := ClaimReply(job, owner, now);
    UpdateIsLocal(db, claim, job);
    if Took(db, claim) {
      ExecKeepsCoherence(db, claim);
      VerdictLightens(db.jobs[job], owner, job, now, verdict);
      SecondUpdate(db, Exec(db, claim), VerdictStatement(owner, job, db.jobs[job].attempts, verdict), job);
    }
  }

  lemma SecondUpdate(db: Database, mid: Database, s: Statement, job: JobId)
    requires OnlyJob(db, mid, job) && Target(s) == Some(job) && job in db.jobs
    requires RowsCoherent(mid) && CountsOnce(s, mid.jobs[job])
    ensures var after := Exec(mid, s);
            OnlyJob(db, after, job) && after.jobs[job] == UpdateRow(s, job, mid.jobs[job]) && RowsCoherent(after)
  {
    UpdateIsLocal(mid, s, job);
    forall id | id in mid.jobs && id != job ensures !Where(s, id, mid.jobs[id]) {
      WhereIsTargeted(s, id, mid.jobs[id]);
    }
    ExecKeepsCoherence(mid, s);
  }

  lemma VerdictLightens(row: Job, owner: OwnerId, job: JobId, now: Time, verdict: Verdict)
    requires Coherent(row) && Where(ClaimReply(job, owner, now), job, row)
    ensures var claimed := Set(ClaimReply(job, owner, now), row);
            var after := UpdateRow(VerdictStatement(owner, job, row.attempts, verdict), job, claimed);
            && Weight(after) < Weight(row)
            && after.status == row.status && after.completedAt == row.completedAt
            && !after.delivery.Delivering?
            && (verdict.Posted? <==> after.delivery.Delivered?)
            && (after.delivery.Undelivered? <==> verdict.RetryableError? && row.attempts + 1 < MAX_ATTEMPTS)
  {
  }

  /** At time `now` no runtime holds two unexpired offers. */
  ghost predicate OneOfferEach(db: Database, now: Time) {
    forall a, b :: a in db.jobs && b in db.jobs && a != b && LiveOffer(db.jobs[a], now) && LiveOffer(db.jobs[b], now)
                   ==> db.jobs[a].runtime != db.jobs[b].runtime
  }

  predicate LiveOffer(row: Job, now: Time) { row.status.Offered? && row.expiresAt > now }

  /** Statements other than Offer create no offers, and time only retires them. */
  lemma OtherStatementsKeepOneOffer(db: Database, s: Statement, now: Time, later: Time)
    requires OneOfferEach(db, now) && now <= later && !s.Offer?
    ensures OneOfferEach(Exec(db, s), later)
  {
    var after := Exec(db, s);
    forall id | id in after.jobs && LiveOffer(after.jobs[id], later)
      ensures id in db.jobs && LiveOffer(db.jobs[id], now) && db.jobs[id].runtime == after.jobs[id].runtime
    {
      ExecRow(db, s, id);
      if id in db.jobs {
        OffersOnlyFromOffer(s, id, db.jobs[id], now, later);
      }
    }
  }

  lemma OffersOnlyFromOffer(s: Statement, id: JobId, row: Job, now: Time, later: Time)
    requires !s.Offer? && now <= later && LiveOffer(UpdateRow(s, id, row), later)
    ensures LiveOffer(row, now) && UpdateRow(s, id, row).runtime == row.runtime
  {
  }

  function Offers(db: Database, runtime: RuntimeId, now: Time): set<JobId> {
    set id | id in db.jobs && LiveOffer(db.jobs[id], now) && db.jobs[id].runtime == Some(runtime)
  }

  function Candidates(db: Database, now: Time): set<JobId> {
    set id | id in db.jobs && db.jobs[id].status.Pending? && db.jobs[id].expiresAt > now
  }

  ghost predicate Oldest(db: Database, among: set<JobId>, id: JobId)
    requires among <= db.jobs.Keys
  {
    id in among && forall other :: other in among && other != id ==> Precedes(ByCreation, db.jobs, id, other)
  }

  /** An uninterrupted claim offers the oldest candidate, and only to a runtime without a live offer. */
  ghost predicate ClaimStep(before: Database, after: Database, runtime: RuntimeId, now: Time) {
    if Offers(before, runtime, now) != {} || Candidates(before, now) == {} then after == before
    else exists id :: Oldest(before, Candidates(before, now), id) && after == Exec(before, Offer(id, runtime, now))
  }

  /** The offering statement keeps one offer each exactly if it offers nothing live or the runtime holds no live offer. */
  lemma OfferKeepsOneOfferIff(db: Database, id: JobId, runtime: RuntimeId, now: Time)
    requires OneOfferEach(db, now)
    ensures OneOfferEach(Exec(db, Offer(id, runtime, now)), now) <==>
            id !in Candidates(db, now) || Offers(db, runtime, now) == {}
  {
    var after := Exec(db, Offer(id, runtime, now));
    if id in db.jobs {
      UpdateIsLocal(db, Offer(id, runtime, now), id);
    }
    forall other | other in after.jobs && other != id
      ensures after.jobs[other] == db.jobs[other]
    {
      ExecRow(db, Offer(id, runtime, now), other);
    }
    if id in Candidates(db, now) {
      assert LiveOffer(after.jobs[id], now) && after.jobs[id].runtime == Some(runtime);
      if Offers(db, runtime, now) != {} {
        var other :| other in Offers(db, runtime, now);
        assert after.jobs[other] == db.jobs[other];
      } else {
        forall other | other in db.jobs && LiveOffer(db.jobs[other], now)
          ensures db.jobs[other].runtime != Some(runtime)
        {
          assert other !in Offers(db, runtime, now);
        }
      }
    }
  }

  lemma ClaimKeepsOneOffer(before: Database, after: Database, runtime: RuntimeId, now: Time)
    requires OneOfferEach(before, now) && ClaimStep(before, after, runtime, now)
    ensures OneOfferEach(after, now)
  {
    if after != before {
      var id :| Oldest(before, Candidates(before, now), id) && after == Exec(before, Offer(id, runtime, now));
      OfferKeepsOneOfferIff(before, id, runtime, now);
    }
  }

  /** One serialised coordinator at a time: claims run uninterrupted, everything else is any other statement. */
  datatype Serial = ClaimOp(runtime: RuntimeId) | OtherOp(s: Statement)

  ghost predicate SerialRun(states: seq<Database>, ops: seq<Serial>, times: seq<Time>) {
    && |states| == |times| == |ops| + 1
    && (forall i :: 0 <= i < |ops| ==> times[i] <= times[i + 1])
    && (forall i :: 0 <= i < |ops| ==> SerialStep(states[i], states[i + 1], ops[i], times[i + 1]))
  }

  ghost predicate SerialStep(before: Database, after: Database, op: Serial, now: Time) {
    match op
    case ClaimOp(runtime) => ClaimStep(before, after, runtime, now)
    case OtherOp(s) => !s.Offer? && after == Exec(before, s)
  }

  /** Within one serialised coordinator a runtime never holds two unexpired offers. */
  lemma {:induction false} NeverTwoLiveOffers(states: seq<Database>, ops: seq<Serial>, times: seq<Time>, k: nat)
    requires SerialRun(states, ops, times) && OneOfferEach(states[0], times[0]) && k <= |ops|
    ensures OneOfferEach(states[k], times[k])
  {
    if k > 0 {
      NeverTwoLiveOffers(states, ops, times, k - 1);
      assert SerialStep(states[k - 1], states[k - 1 + 1], ops[k - 1], times[k - 1 + 1]);
      assert times[k - 1] <= times[k - 1 + 1];
      match ops[k - 1] {
        case ClaimOp(runtime) =>
          assert OneOfferEach(states[k - 1], times[k]);
          ClaimKeepsOneOffer(states[k - 1], states[k], runtime, times[k]);
        case OtherOp(s) =>
          OtherStatementsKeepOneOffer(states[k - 1], s, times[k - 1], times[k]);
      }
    }
  }

  /** Two instances that both read "no offer yet" before either writes do give one runtime two live offers. */
  lemma TwoInstancesOfferTwice(db: Database, a: JobId, b: JobId, runtime: RuntimeId, now: Time)
    requires a in Candidates(db, now) && b in Candidates(db, now) && a != b
    ensures !OneOfferEach(Exec(Exec(db, Offer(a, runtime, now)), Offer(b, runtime, now)), now)
  {
    var mid := Exec(db, Offer(a, runtime, now));
    UpdateIsLocal(db, Offer(a, runtime, now), a);
    UpdateIsLocal(mid, Offer(b, runtime, now), b);
    var after := Exec(mid, Offer(b, runtime, now));
    assert LiveOffer(after.jobs[a], now) && LiveOffer(after.jobs[b], now);
  }

  // ---------- The cleanup sweep ----------

  function OverdueRunning(db: Database, now: Time): set<JobId> {
    set id | id in db.jobs && db.jobs[id].status.Running? && Before(db.jobs[id].claimedAt, now - RUNNING_TIMEOUT)
  }

  function ExpiredWaiting(db: Database, now: Time): set<JobId> {
    set id | id in db.jobs && Waiting(db.jobs[id]) && db.jobs[id].expiresAt <= now
  }

  predicate DueForDelivery(row: Job, now: Time) {
    row.delivery.Undelivered? || (row.delivery.Delivering? && Before(row.deliveryClaimedAt, now - DELIVERY_LEASE))
  }

  function Deliverable(db: Database, now: Time): set<JobId> {
    set id | id in db.jobs && DueForDelivery(db.jobs[id], now)
  }

  /** The listed rows, and no others, were handled: settled if active, and one delivery attempt spent. */
  ghost predicate Handled(before: Database, after: Database, now: Time, ids: set<JobId>) {
    && after == before.(jobs := after.jobs)
    && after.jobs.Keys == before.jobs.Keys
    && (forall id :: id in before.jobs && id !in ids ==> after.jobs[id] == before.jobs[id])
    && (forall id :: id in ids ==>
          && Lightened(before.jobs, after.jobs, id)
          && !after.jobs[id].delivery.Delivering?
          && !Active(after.jobs[id])
          && after.jobs[id].completedAt.Some?
          && (Active(before.jobs[id]) ==> after.jobs[id].status.Failed? && after.jobs[id].completedAt == Some(now))
          && (!Active(before.jobs[id]) ==>
                after.jobs[id].status == before.jobs[id].status &&
                after.jobs[id].completedAt == before.jobs[id].completedAt))
  }

  lemma HandledOneMore(start: Database, mid: Database, after: Database, now: Time, done: set<JobId>, job: JobId)
    requires job !in done && Handled(start, mid, now, done) && Handled(mid, after, now, {job})
    ensures Handled(start, after, now, done + {job})
  {
    assert job in mid.jobs;
  }

  lemma HandledTogether(
    start: Database, mid: Database, after: Database, now: Time, first: set<JobId>, second: set<JobId>)
    requires Handled(start, mid, now, first) && Handled(mid, after, now, second) && first !! second
    ensures Handled(start, after, now, first + second)
  {
  }

  lemma SettledRow(db: Database, s: Statement, job: JobId, now: Time)
    requires RowsCoherent(db) && job in db.jobs
    requires s.FailRunning? || s.Expire?
    requires Target(s) == Some(job) && s.now == now && Where(s, job, db.jobs[job])
    ensures var mid := Exec(db, s);
            && RowsCoherent(mid) && OnlyJob(db, mid, job)
            && mid.jobs[job].status.Failed? && mid.jobs[job].completedAt == Some(now)
            && mid.jobs[job].delivery.Undelivered? && Weight(mid.jobs[job]) < Weight(db.jobs[job])
  {
    UpdateIsLocal(db, s, job);
    assert Coherent(db.jobs[job]);
    UpdateKeepsCoherence(s, job, db.jobs[job]);
    ExecKeepsCoherence(db, s);
  }

  lemma HandledInTwoSteps(before: Database, mid: Database, after: Database, job: JobId, now: Time)
    requires job in before.jobs && OnlyJob(before, mid, job) && OnlyJob(mid, after, job)
    requires Weight(mid.jobs[job]) <= Weight(before.jobs[job]) && Lightened(mid.jobs, after.jobs, job)
    requires !after.jobs[job].delivery.Delivering? && !Active(after.jobs[job]) && after.jobs[job].completedAt.Some?
    requires Active(before.jobs[job]) && after.jobs[job].status.Failed? && after.jobs[job].completedAt == Some(now)
    ensures Handled(before, after, now, {job})
  {
  }

  /** Settling one active row and delivering its answer handles that row. */
  lemma SettlingHandles(db: Database, s: Statement, owner: OwnerId, job: JobId, now: Time, verdict: Verdict)
    requires RowsCoherent(db) && job in db.jobs
    requires s.FailRunning? || s.Expire?
    requires Target(s) == Some(job) && s.now == now && Where(s, job, db.jobs[job])
    ensures var after := DeliveredRows(Exec(db, s), owner, job, now, verdict);
            RowsCoherent(after) && Handled(db, after, now, {job})
  {
    SettledRow(db, s, job, now);
    SettlementDelivers(db, Exec(db, s), owner, job, now, verdict);
  }

  lemma SettlementDelivers(before: Database, mid: Database, owner: OwnerId, job: JobId, now: Time, verdict: Verdict)
    requires RowsCoherent(mid) && job in before.jobs && Active(before.jobs[job]) && OnlyJob(before, mid, job)
    requires mid.jobs[job].status.Failed? && mid.jobs[job].completedAt == Some(now)
    requires mid.jobs[job].delivery.Undelivered? && Weight(mid.jobs[job]) < Weight(before.jobs[job])
    ensures var after := DeliveredRows(mid, owner, job, now, verdict);
            RowsCoherent(after) && Handled(before, after, now, {job})
  {
    UpdateIsLocal(mid, ClaimReply(job, owner, now), job);
    DeliveryLightens(mid, owner, job, now, verdict);
    DeliveryKeepsStatus(mid, owner, job, now, verdict);
    HandledInTwoSteps(before, mid, DeliveredRows(mid, owner, job, now, verdict), job, now);
  }

  lemma DeliveryKeepsStatus(db: Database, owner: OwnerId, job: JobId, now: Time, verdict: Verdict)
    requires RowsCoherent(db) && job in db.jobs
    ensures var after := DeliveredRows(db, owner, job, now, verdict).jobs;
            job in after && after[job].status == db.jobs[job].status && after[job].completedAt == db.jobs[job].completedAt
  {
    DeliveryLightens(db, owner, job, now, verdict);
  }

  lemma DeliveringHandles(db: Database, owner: OwnerId, job: JobId, now: Time, verdict: Verdict)
    requires RowsCoherent(db) && job in db.jobs && DueForDelivery(db.jobs[job], now)
    ensures var after := DeliveredRows(db, owner, job, now, verdict);
            RowsCoherent(after) && Handled(db, after, now, {job})
  {
    assert Coherent(db.jobs[job]);
    UpdateIsLocal(db, ClaimReply(job, owner, now), job);
    DeliveryLightens(db, owner, job, now, verdict);
    DeliveryKeepsStatus(db, owner, job, now, verdict);
  }

  /** The sweep's closing deletes and time-outs. */
  function Retained(db: Database, now: Time): Database {
    Exec(Exec(Exec(Exec(Exec(Exec(db,
      PruneGrants(now)), PruneRefreshes(now)), PruneTickets(now)), TimeOutRuns(now - RUNNING_TIMEOUT, now)),
      PruneRuns(now - RUN_RETENTION)), PruneJobs(now - JOB_RETENTION))
  }

  /** What the closing phase leaves of the job table. */
  ghost predicate JobsRetained(before: Database, after: Database, now: Time) {
    && after.jobs.Keys <= before.jobs.Keys
    && (forall id :: id in after.jobs ==> after.jobs[id] == before.jobs[id])
    && (forall id :: id in before.jobs && id !in after.jobs ==> Pruned(before.jobs[id], now - JOB_RETENTION))
  }

  /** What the opening phase makes of the job table: stale offers are released. */
  ghost predicate JobsReleased(before: Database, after: Database, now: Time) {
    && after.jobs.Keys == before.jobs.Keys
    && forall id :: id in before.jobs ==>
                      after.jobs[id] ==
                      if before.jobs[id].status.Offered? && Before(before.jobs[id].claimedAt, now - OFFER_LEASE)
                      then Release(before.jobs[id]) else before.jobs[id]
  }

  /** The batches a sweep worked through and the states between its phases. */
  datatype Sweep = Sweep(
    released: Database, stalled: seq<JobId>, expired: seq<JobId>, settled: Database,
    delivered: seq<JobId>, swept: Database)

  ghost predicate SweepStep(before: Database, after: Database, now: Time, w: Sweep) {
    SweepWork(before, now, w) && JobsRetained(w.swept, after, now)
  }

  ghost predicate SweepWork(before: Database, now: Time, w: Sweep) {
    && JobsReleased(before, w.released, now)
    && IsBatch(ByClaim, before.jobs, OverdueRunning(before, now), CLEANUP_BATCH, w.stalled)
    && IsBatch(ByExpiry, before.jobs, ExpiredWaiting(before, now), CLEANUP_BATCH, w.expired)
    && Handled(w.released, w.settled, now, Elements(w.stalled) + Elements(w.expired))
    && IsBatch(ByCompletion, w.settled.jobs, Deliverable(w.settled, now), DELIVERY_BATCH, w.delivered)
    && Handled(w.settled, w.swept, now, Elements(w.delivered))
  }

  lemma RetainedJobs(db: Database, now: Time)
    ensures JobsRetained(db, Retained(db, now), now)
  {
    var d1 := Exec(db, PruneGrants(now));
    JobsUntouched(db, PruneGrants(now));
    var d2 := Exec(d1, PruneRefreshes(now));
    JobsUntouched(d1, PruneRefreshes(now));
    var d3 := Exec(d2, PruneTickets(now));
    JobsUntouched(d2, PruneTickets(now));
    var d4 := Exec(d3, TimeOutRuns(now - RUNNING_TIMEOUT, now));
    JobsUntouched(d3, TimeOutRuns(now - RUNNING_TIMEOUT, now));
    JobsUntouched(d4, PruneRuns(now - RUN_RETENTION));
  }

  lemma JobsUntouched(db: Database, s: Statement)
    requires s.PruneGrants? || s.PruneRefreshes? || s.PruneTickets? || s.TimeOutRuns? || s.PruneRuns?
    ensures Exec(db, s).jobs == db.jobs
  {
  }

  lemma ReleasedJobs(db: Database, now: Time)
    ensures JobsReleased(db, Exec(db, ReleaseStale(now - OFFER_LEASE)), now)
  {
    forall id | id in db.jobs
      ensures Exec(db, ReleaseStale(now - OFFER_LEASE)).jobs[id] ==
              UpdateRow(ReleaseStale(now - OFFER_LEASE), id, db.jobs[id])
    {
      ExecRow(db, ReleaseStale(now - OFFER_LEASE), id);
    }
  }

  /** Releasing stale offers changes neither the overdue nor the expired jobs, nor their sort columns. */
  lemma DueSetsSurvive(before: Database, released: Database, now: Time)
    requires JobsReleased(before, released, now)
    ensures OverdueRunning(before, now) == OverdueRunning(released, now)
    ensures ExpiredWaiting(before, now) == ExpiredWaiting(released, now)
    ensures forall id :: id in OverdueRunning(before, now) ==> released.jobs[id] == before.jobs[id]
  {
  }

  /** Failing overdue jobs leaves the expired waiting ones alone. */
  lemma HandledKeepsExpired(released: Database, failed: Database, now: Time, ids: set<JobId>)
    requires Handled(released, failed, now, ids)
    requires forall id :: id in ids ==> released.jobs[id].status.Running?
    ensures ExpiredWaiting(failed, now) == ExpiredWaiting(released, now)
    ensures ids !! ExpiredWaiting(failed, now)
  {
    forall id | id in released.jobs ensures id in ExpiredWaiting(failed, now) <==> id in ExpiredWaiting(released, now) {
      assert id in ids || failed.jobs[id] == released.jobs[id];
    }
  }

  /** No offer older than the lease is left after a sweep. */
  lemma SweepReleasesStaleOffers(before: Database, after: Database, now: Time, w: Sweep, id: JobId)
    requires SweepStep(before, after, now, w) && id in after.jobs
    ensures !(after.jobs[id].status.Offered? && Before(after.jobs[id].claimedAt, now - OFFER_LEASE))
  {
    if id !in Elements(w.delivered) && id !in Elements(w.stalled) + Elements(w.expired) {
      assert after.jobs[id] == w.released.jobs[id];
    } else if id !in Elements(w.delivered) {
      assert id in w.settled.jobs;
    }
  }

  function Min(a: nat, b: nat): nat { if a < b then a else b }

  /** A sweep settles min(100, n) overdue running jobs and min(100, n) expired waiting jobs. */
  lemma SweepSettlesBatches(before: Database, after: Database, now: Time, w: Sweep, id: JobId)
    requires SweepStep(before, after, now, w)
    ensures |w.stalled| == Min(CLEANUP_BATCH, |OverdueRunning(before, now)|)
    ensures |w.expired| == Min(CLEANUP_BATCH, |ExpiredWaiting(before, now)|)
    ensures id in Elements(w.stalled) + Elements(w.expired) ==>
              && id in before.jobs && Active(before.jobs[id])
              && id in after.jobs && after.jobs[id].status.Failed? && after.jobs[id].completedAt == Some(now)
  {
    if id in Elements(w.stalled) + Elements(w.expired) {
      assert id in OverdueRunning(before, now) + ExpiredWaiting(before, now);
      assert Active(w.released.jobs[id]);
      assert w.settled.jobs[id].status.Failed? && w.settled.jobs[id].completedAt == Some(now);
      assert id !in Elements(w.delivered) ==> w.swept.jobs[id] == w.settled.jobs[id];
    }
  }

  lemma HandledIsLighter(before: Database, after: Database, now: Time, ids: set<JobId>)
    requires Handled(before, after, now, ids)
    ensures Lighter(before.jobs, after.jobs)
  {
    forall id | id in after.jobs ensures Weight(after.jobs[id]) <= Weight(before.jobs[id]) {
      assert id in ids || after.jobs[id] == before.jobs[id];
    }
  }

  function Touched(w: Sweep): set<JobId> { Elements(w.stalled) + Elements(w.expired) + Elements(w.delivered) }

  /** A sweep adds no work, and takes work off every row it handles. */
  lemma SweepIsLighter(before: Database, after: Database, now: Time, w: Sweep)
    requires SweepStep(before, after, now, w)
    ensures Lighter(before.jobs, after.jobs)
    ensures forall id :: id in Touched(w) ==> Lightened(before.jobs, after.jobs, id)
  {
    PhasesAreLighter(before, w.released, w.settled, w.swept, after, now, Elements(w.stalled) + Elements(w.expired),
                     Elements(w.delivered));
  }

  lemma PhasesAreLighter(
    before: Database, released: Database, settled: Database, swept: Database, after: Database, now: Time,
    closed: set<JobId>, delivered: set<JobId>)
    requires JobsReleased(before, released, now) && JobsRetained(swept, after, now)
    requires Handled(released, settled, now, closed) && Handled(settled, swept, now, delivered)
    ensures Lighter(before.jobs, after.jobs)
    ensures forall id :: id in closed + delivered ==> Lightened(before.jobs, after.jobs, id)
  {
    HandledIsLighter(released, settled, now, closed);
    HandledIsLighter(settled, swept, now, delivered);
    assert Lighter(before.jobs, released.jobs);
    forall id | id in closed + delivered ensures Lightened(before.jobs, after.jobs, id) {
      if id !in delivered {
        assert swept.jobs[id] == settled.jobs[id];
      } else {
        assert id in settled.jobs;
      }
    }
  }

  /** Every deadline that a sweep at `now` acts on has passed. */
  ghost predicate DeadlinesPast(db: Database, now: Time) {
    forall id :: id in db.jobs ==>
                   && (db.jobs[id].status.Running? ==> Before(db.jobs[id].claimedAt, now - RUNNING_TIMEOUT))
                   && (Waiting(db.jobs[id]) ==> db.jobs[id].expiresAt <= now)
                   && (db.jobs[id].delivery.Delivering? ==> Before(db.jobs[id].deliveryClaimedAt, now - DELIVERY_LEASE))
  }

  /** With all deadlines past, a sweep strictly decreases the measure while any work is left. */
  lemma SweepMakesProgress(before: Database, after: Database, now: Time, w: Sweep)
    requires SweepStep(before, after, now, w) && DeadlinesPast(before, now) && HasWork(before)
    ensures Measure(after) < Measure(before)
  {
    var handled := SomethingHandled(before, after, now, w);
    SweepLightens(before, after, now, w, handled);
    MeasureFallsAt(before, after, handled);
  }

  lemma SweepLightens(before: Database, after: Database, now: Time, w: Sweep, id: JobId)
    requires SweepStep(before, after, now, w) && id in Touched(w)
    ensures Lighter(before.jobs, after.jobs) && Lightened(before.jobs, after.jobs, id)
  {
    SweepIsLighter(before, after, now, w);
  }

  lemma SomethingHandled(before: Database, after: Database, now: Time, w: Sweep) returns (id: JobId)
    requires SweepStep(before, after, now, w) && DeadlinesPast(before, now) && HasWork(before)
    ensures id in Touched(w)
  {
    BatchIsFull(ByClaim, before.jobs, OverdueRunning(before, now), CLEANUP_BATCH, w.stalled);
    BatchIsFull(ByExpiry, before.jobs, ExpiredWaiting(before, now), CLEANUP_BATCH, w.expired);
    BatchIsFull(ByCompletion, w.settled.jobs, Deliverable(w.settled, now), DELIVERY_BATCH, w.delivered);
    if w.stalled == [] && w.expired == [] {
      assert Elements(w.stalled) + Elements(w.expired) == {};
      IdleSweepDelivers(before, w.released, w.settled, now);
    }
    id := if w.stalled != [] then w.stalled[0] else if w.expired != [] then w.expired[0] else w.delivered[0];
  }

  lemma BatchIsFull(order: OrderBy, jobs: map<JobId, Job>, matching: set<JobId>, limit: nat, ids: seq<JobId>)
    requires matching <= jobs.Keys && IsBatch(order, jobs, matching, limit, ids) && limit > 0
    ensures ids == [] <==> matching == {}
  {
    assert |matching| == 0 <==> matching == {};
  }

  /** When nothing is left to settle although all deadlines are past, a reply is due for delivery. */
  lemma IdleSweepDelivers(before: Database, released: Database, settled: Database, now: Time)
    requires JobsReleased(before, released, now) && Handled(released, settled, now, {})
    requires DeadlinesPast(before, now) && HasWork(before)
    requires OverdueRunning(before, now) == {} && ExpiredWaiting(before, now) == {}
    ensures Deliverable(settled, now) != {}
  {
    var id :| id in before.jobs && (Active(before.jobs[id]) || AwaitingDelivery(before.jobs[id]));
    assert id !in OverdueRunning(before, now) && id !in ExpiredWaiting(before, now);
    assert settled.jobs[id] == before.jobs[id];
    assert id in Deliverable(settled, now);
  }

  /** Nothing that a sweep does starts a deadline anew. */
  lemma DeadlinesStayPast(before: Database, after: Database, now: Time, w: Sweep, later: Time)
    requires SweepStep(before, after, now, w) && DeadlinesPast(before, now) && now <= later
    ensures DeadlinesPast(after, later)
  {
    ReleaseKeepsDeadlines(before, w.released, now);
    HandledKeepsDeadlines(w.released, w.settled, now, Elements(w.stalled) + Elements(w.expired));
    HandledKeepsDeadlines(w.settled, w.swept, now, Elements(w.delivered));
    RetentionKeepsDeadlines(w.swept, after, now, later);
  }

  lemma ReleaseKeepsDeadlines(before: Database, after: Database, now: Time)
    requires JobsReleased(before, after, now) && DeadlinesPast(before, now)
    ensures DeadlinesPast(after, now)
  {
  }

  lemma RetentionKeepsDeadlines(before: Database, after: Database, now: Time, later: Time)
    requires JobsRetained(before, after, now) && DeadlinesPast(before, now) && now <= later
    ensures DeadlinesPast(after, later)
  {
  }

  lemma HandledKeepsDeadlines(before: Database, after: Database, now: Time, ids: set<JobId>)
    requires Handled(before, after, now, ids) && DeadlinesPast(before, now)
    ensures DeadlinesPast(after, now)
  {
    forall id | id in after.jobs && id !in ids ensures after.jobs[id] == before.jobs[id] {
      assert id in before.jobs;
    }
  }

  /** Repeated sweeps of one instance with no new input, the first one when all deadlines have passed. */
  ghost predicate SweepRun(states: seq<Database>, times: seq<Time>, sweeps: seq<Sweep>) {
    && |states| == |sweeps| + 1 && |times| == |sweeps|
    && (forall i :: 0 < i < |times| ==> times[i - 1] <= times[i])
    && (forall i :: 0 <= i < |sweeps| ==> SweepStep(states[i], states[i + 1], times[i], sweeps[i]))
    && (times != [] ==> DeadlinesPast(states[0], times[0]))
  }

  lemma {:induction false} RunKeepsDeadlines(states: seq<Database>, times: seq<Time>, sweeps: seq<Sweep>, k: nat)
    requires SweepRun(states, times, sweeps) && k < |sweeps|
    ensures DeadlinesPast(states[k], times[k])
  {
    if k > 0 {
      RunKeepsDeadlines(states, times, sweeps, k - 1);
      assert SweepStep(states[k - 1], states[k - 1 + 1], times[k - 1], sweeps[k - 1]);
      DeadlinesStayPast(states[k - 1], states[k], times[k - 1], sweeps[k - 1], times[k]);
    }
  }

  /** After more sweeps than the measure says, no work is left. */
  lemma {:induction false} SweepsFinish(states: seq<Database>, times: seq<Time>, sweeps: seq<Sweep>)
    requires SweepRun(states, times, sweeps) && |sweeps| > Measure(states[0])
    ensures !HasWork(states[|sweeps|])
  {
    var k: nat := 0;
    while k < |sweeps|
      invariant k <= |sweeps| && (HasWork(states[k]) ==> Measure(states[k]) + k <= Measure(states[0]))
    {
      if HasWork(states[k]) {
        RunMakesProgress(states, times, sweeps, k);
      } else {
        IdleStaysIdle(states[k], states[k + 1], times[k], sweeps[k]);
      }
      k := k + 1;
    }
  }

  /** Where there is no work a sweep makes none: it handles no row. */
  lemma IdleStaysIdle(before: Database, after: Database, now: Time, w: Sweep)
    requires SweepStep(before, after, now, w) && !HasWork(before)
    ensures !HasWork(after)
  {
    SweepIsLighter(before, after, now, w);
    forall id ensures id !in Touched(w) {
      assert id in Touched(w) ==> Lightened(before.jobs, after.jobs, id);
    }
    IdlePhases(before, w.released, w.settled, w.swept, after, now, Elements(w.stalled) + Elements(w.expired),
               Elements(w.delivered));
  }

  lemma IdlePhases(
    before: Database, released: Database, settled: Database, swept: Database, after: Database, now: Time,
    closed: set<JobId>, delivered: set<JobId>)
    requires JobsReleased(before, released, now) && JobsRetained(swept, after, now) && !HasWork(before)
    requires Handled(released, settled, now, closed) && Handled(settled, swept, now, delivered)
    requires forall id :: id !in closed + delivered
    ensures forall id :: id in after.jobs ==> id in before.jobs && after.jobs[id] == before.jobs[id]
  {
    forall id | id in after.jobs ensures id in before.jobs && after.jobs[id] == before.jobs[id] {
      assert id !in closed + delivered;
      assert swept.jobs[id] == settled.jobs[id] == released.jobs[id];
    }
  }

  lemma RunMakesProgress(states: seq<Database>, times: seq<Time>, sweeps: seq<Sweep>, k: nat)
    requires SweepRun(states, times, sweeps) && k < |sweeps| && HasWork(states[k])
    ensures Measure(states[k + 1]) < Measure(states[k])
  {
    RunKeepsDeadlines(states, times, sweeps, k);
    SweepMakesProgress(states[k], states[k + 1], times[k], sweeps[k]);
  }
}
