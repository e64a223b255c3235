/**
 The PostgreSQL rows of one claw's coordinator and the statements that touch them
 (aws/postgres-coordinator.ts).  Every job statement of the program is a conditional UPDATE, so it is
 modelled as a WHERE predicate and a SET function on one row, applied to every row of the table.
 A statement carries the values its caller computed earlier, however stale they are by now.
 */
module CoordinatorTables {
  import opened Common

  // Identifiers are opaque; numbers give them the total order that ORDER BY and LIMIT rely on.
  type JobId = nat
  type EventId = nat
  type RuntimeId = nat
  type OwnerId = nat
  type TokenId = nat
  type InvocationId = nat

  const OFFER_LEASE: int := 30_000
  const DELIVERY_LEASE: int := 60_000
  const RUNNING_TIMEOUT: int := 17 * 60 * 1000
  const CLEANUP_BATCH: nat := 100
  const DELIVERY_BATCH: nat := 20
  const JOB_RETENTION: int := 24 * 60 * 60 * 1000
  const RUN_RETENTION: int := 7 * 24 * 60 * 60 * 1000
  const MAX_ATTEMPTS: nat := 5

  datatype Status = Pending | Offered | Running | Completed | Failed

  datatype Delivery = NoReply | Undelivered | Delivering | Delivered | GivenUp

  /** What a settled job answers in Slack. */
  datatype Reply = Answer(text: string) | CouldNotComplete | TeammateDisabled | TurnExpired

  datatype Job = Job(
    event: EventId,
    status: Status,
    payload: Option<string>,
    runtime: Option<RuntimeId>,
    response: Option<Reply>,
    delivery: Delivery,
    deliveryOwner: Option<OwnerId>,
    deliveryClaimedAt: Option<Time>,
    attempts: nat,
    createdAt: Time,
    claimedAt: Option<Time>,
    completedAt: Option<Time>,
    expiresAt: Time,
    error: Option<string>)

  datatype Claw = Claw(resetGeneration: nat, removedAt: Option<Time>)

  datatype Grant = Grant(jti: TokenId, digest: string, expiresAt: Time, consumedAt: Option<Time>)

  datatype Ticket = Ticket(expiresAt: Time, consumedAt: Option<Time>)

  /** A refresh row.  Its response envelope holds a signed token, identified here by its own refresh id. */
  datatype Refresh = Refresh(expiresAt: Time, consumedAt: Option<Time>, response: Option<TokenId>)

  datatype RunStatus = RunRunning | RunSucceeded | RunFailed

  datatype GovernedRun = GovernedRun(status: RunStatus, startedAt: Time, completedAt: Option<Time>)

  datatype Database = Database(
    claw: Option<Claw>,
    grants: map<InvocationId, Grant>,
    tickets: map<TokenId, Ticket>,
    refreshes: map<TokenId, Refresh>,
    runs: map<InvocationId, GovernedRun>,
    jobs: map<JobId, Job>)

  const EMPTY := Database(None, map[], map[], map[], map[], map[])

  predicate Active(row: Job) { row.status.Pending? || row.status.Offered? || row.status.Running? }

  predicate Waiting(row: Job) { row.status.Pending? || row.status.Offered? }

  predicate AwaitingDelivery(row: Job) { row.delivery.Undelivered? || row.delivery.Delivering? }

  predicate Settled(row: Job) { row.delivery.Delivered? || row.delivery.GivenUp? }

  predicate HasWork(db: Database) {
    exists id :: id in db.jobs && (Active(db.jobs[id]) || AwaitingDelivery(db.jobs[id]))
  }

  predicate Removed(db: Database) { db.claw.Some? && db.claw.value.removedAt.Some? }

  function Generation(db: Database): nat { if db.claw.Some? then db.claw.value.resetGeneration else 0 }

  /** `delivery_claimed_at < before` and `claimed_at < before`, which NULL never satisfies. */
  predicate Before(at: Option<Time>, before: Time) { at.Some? && at.value < before }

  datatype Statement =
    // Turn jobs
    | Enqueue(id: JobId, event: EventId, prompt: string, now: Time, expiresAt: Time)
    | Offer(id: JobId, runtime: RuntimeId, now: Time)
    | ReleaseOffer(id: JobId, runtime: RuntimeId)
    | ReleaseRuntime(runtime: RuntimeId)
    | ReleaseAll
    | ReleaseStale(before: Time)
    | Start(id: JobId, runtime: RuntimeId, now: Time)
    | Complete(id: JobId, runtime: RuntimeId, ok: bool, output: string, now: Time, error: string)
    | FailRunning(id: JobId, now: Time, error: string)
    | Expire(id: JobId, now: Time)
    | CancelWaiting(id: JobId, now: Time, error: string)
    | PruneJobs(before: Time)
    // Reply delivery
    | ClaimReply(id: JobId, owner: OwnerId, now: Time)
    | RecordDelivered(id: JobId, owner: OwnerId)
    | RecordRetry(id: JobId, owner: OwnerId, attempts: nat)
    | RecordTerminal(id: JobId, owner: OwnerId, attempts: nat)
    | RecordUndeliverable(id: JobId, owner: OwnerId)
    // Claw row
    | TouchGeneration
    | BumpGeneration
    | Remove(now: Time, error: string)
    // One-use credentials
    | RegisterGrant(invocation: InvocationId, jti: TokenId, digest: string, expiresAt: Time)
    | ConsumeGrant(invocation: InvocationId, jti: TokenId, digest: string, now: Time)
    | RegisterTicket(jti: TokenId, expiresAt: Time)
    | ConsumeTicket(jti: TokenId, now: Time)
    | RegisterRefresh(jti: TokenId, expiresAt: Time)
    | Rotate(jti: TokenId, next: TokenId, nextExpiresAt: Time, now: Time)
    | PruneGrants(now: Time)
    | PruneTickets(now: Time)
    | PruneRefreshes(now: Time)
    // Governed runs
    | StartRun(invocation: InvocationId, now: Time)
    | FinishRun(invocation: InvocationId, ok: bool, now: Time)
    | TimeOutRuns(before: Time, now: Time)
    | PruneRuns(before: Time)

  /** The WHERE clause of a job UPDATE; statements that are not job updates match no row. */
  predicate Where(s: Statement, id: JobId, row: Job) {
    match s
    case Offer(job, _, _) => id == job && row.status.Pending?
    case ReleaseOffer(job, runtime) => id == job && row.status.Offered? && row.runtime == Some(runtime)
    case ReleaseRuntime(runtime) => row.status.Offered? && row.runtime == Some(runtime)
    case ReleaseAll => row.status.Offered?
    case ReleaseStale(before) => row.status.Offered? && Before(row.claimedAt, before)
    case Start(job, runtime, _) => id == job && row.status.Offered? && row.runtime == Some(runtime)
    case Complete(job, runtime, _, _, _, _) => id == job && row.status.Running? && row.runtime == Some(runtime)
    case FailRunning(job, _, _) => id == job && row.status.Running?
    case Expire(job, _) => id == job && Waiting(row)
    case CancelWaiting(job, _, _) => id == job && Waiting(row)
    case ClaimReply(job, _, now) =>
      id == job &&
      (row.delivery.Undelivered? ||
       (row.delivery.Delivering? && Before(row.deliveryClaimedAt, now - DELIVERY_LEASE)))
    case RecordDelivered(job, owner) => id == job && Holds(row, owner)
    case RecordRetry(job, owner, _) => id == job && Holds(row, owner)
    case RecordTerminal(job, owner, _) => id == job && Holds(row, owner)
    case RecordUndeliverable(job, owner) => id == job && Holds(row, owner)
    case Remove(_, _) => Active(row) || AwaitingDelivery(row)
    case _ => false
  }

  /** The one row a statement addresses by its id, if it does. */
  function Target(s: Statement): Option<JobId> {
    match s
    case Offer(id, _, _) => Some(id)
    case ReleaseOffer(id, _) => Some(id)
    case Start(id, _, _) => Some(id)
    case Complete(id, _, _, _, _, _) => Some(id)
    case FailRunning(id, _, _) => Some(id)
    case Expire(id, _) => Some(id)
    case CancelWaiting(id, _, _) => Some(id)
    case ClaimReply(id, _, _) => Some(id)
    case RecordDelivered(id, _) => Some(id)
    case RecordRetry(id, _, _) => Some(id)
    case RecordTerminal(id, _, _) => Some(id)
    case RecordUndeliverable(id, _) => Some(id)
    case _ => None
  }

  predicate Holds(row: Job, owner: OwnerId) { row.delivery.Delivering? && row.deliveryOwner == Some(owner) }

  function Release(row: Job): Job { row.(status := Pending, runtime := None, claimedAt := None) }

  function Settle(row: Job, status: Status, reply: Reply, now: Time, error: Option<string>): Job {
    row.(status := status, completedAt := Some(now), response := Some(reply), payload := None,
    delivery := Undelivered, error := error)
  }

  function CloseDelivery(row: Job, delivery: Delivery): Job {
    row.(delivery := delivery, deliveryOwner := None, deliveryClaimedAt := None, payload := None, response := None)
  }

  /** The SET clause of a job UPDATE. */
  function Set(s: Statement, row: Job): Job {
    match s
    case Offer(_, runtime, now) => row.(status := Offered, runtime := Some(runtime), claimedAt := Some(now))
    case ReleaseOffer(_, _) => Release(row)
    case ReleaseRuntime(_) => Release(row)
    case ReleaseAll => Release(row)
    case ReleaseStale(_) => Release(row)
    case Start(_, _, now) => row.(status := Running, claimedAt := Some(now))
    case Complete(_, _, ok, output, now, error) =>
      if ok then Settle(row, Completed, Answer(output), now, None)
      else Settle(row, Failed, CouldNotComplete, now, Some(error))
    case FailRunning(_, now, error) => Settle(row, Failed, CouldNotComplete, now, Some(error))
    case Expire(_, now) => Settle(row, Failed, TurnExpired, now, Some("turn expired"))
    case CancelWaiting(_, now, error) => Settle(row, Failed, TeammateDisabled, now, Some(error))
    case ClaimReply(_, owner, now) =>
      row.(delivery := Delivering, deliveryOwner := Some(owner), deliveryClaimedAt := Some(now))
    case RecordDelivered(_, _) => CloseDelivery(row, Delivered)
    case RecordRetry(_, _, attempts) =>
      row.(delivery := Undelivered, attempts := attempts, deliveryOwner := None, deliveryClaimedAt := None)
    case RecordTerminal(_, _, attempts) => CloseDelivery(row, GivenUp).(attempts := attempts)
    case RecordUndeliverable(_, _) => CloseDelivery(row, GivenUp)
    case Remove(now, error) =>
      CloseDelivery(row, GivenUp).(
      status := Failed, completedAt := if row.completedAt.Some? then row.completedAt else Some(now), error := Some(error))
    case _ => row
  }

  function UpdateRow(s: Statement, id: JobId, row: Job): Job { if Where(s, id, row) then Set(s, row) else row }

  function UpdateJobs(s: Statement, jobs: map<JobId, Job>): map<JobId, Job> {
    map id | id in jobs :: UpdateRow(s, id, jobs[id])
  }

  predicate Conflicts(jobs: map<JobId, Job>, id: JobId, event: EventId) {
    id in jobs || exists other :: other in jobs && jobs[other].event == event
  }

  function NewJob(event: EventId, prompt: string, now: Time, expiresAt: Time): Job {
    Job(event, Pending, Some(prompt), None, None, NoReply, None, None, 0, now, None, None, expiresAt, None)
  }

  predicate GrantMatches(db: Database, invocation: InvocationId, jti: TokenId, digest: string, now: Time) {
    !Removed(db) && invocation in db.grants && db.grants[invocation].jti == jti &&
    db.grants[invocation].digest == digest && db.grants[invocation].expiresAt > now &&
    db.grants[invocation].consumedAt.None?
  }

  predicate TicketMatches(db: Database, jti: TokenId, now: Time) {
    !Removed(db) && jti in db.tickets && db.tickets[jti].consumedAt.None? && db.tickets[jti].expiresAt > now
  }

  predicate RefreshMatches(db: Database, jti: TokenId, now: Time) {
    !Removed(db) && jti in db.refreshes && db.refreshes[jti].response.None? && db.refreshes[jti].expiresAt > now
  }

  function ClawAfter(db: Database, s: Statement): Option<Claw> {
    match s
    case TouchGeneration => Some(Claw(Generation(db), if Removed(db) then db.claw.value.removedAt else None))
    case BumpGeneration => Some(Claw(Generation(db) + 1, if Removed(db) then db.claw.value.removedAt else None))
    case Remove(now, _) => Some(Claw(Generation(db) + 1, if Removed(db) then db.claw.value.removedAt else Some(now)))
    case _ => db.claw
  }

  function GrantsAfter(db: Database, s: Statement): map<InvocationId, Grant> {
    match s
    case Remove(_, _) => map[]
    case RegisterGrant(invocation, jti, digest, expiresAt) =>
      if Removed(db) || invocation in db.grants || (exists i :: i in db.grants && db.grants[i].jti == jti) then db.grants
      else db.grants[invocation := Grant(jti, digest, expiresAt, None)]
    case ConsumeGrant(invocation, jti, digest, now) =>
      if GrantMatches(db, invocation, jti, digest, now)
      then db.grants[invocation := db.grants[invocation].(consumedAt := Some(now))]
      else db.grants
    case PruneGrants(now) => map i | i in db.grants && db.grants[i].expiresAt >= now :: db.grants[i]
    case _ => db.grants
  }

  function TicketsAfter(db: Database, s: Statement): map<TokenId, Ticket> {
    match s
    case Remove(_, _) => map[]
    case RegisterTicket(jti, expiresAt) =>
      if Removed(db) || jti in db.tickets then db.tickets else db.tickets[jti := Ticket(expiresAt, None)]
    case ConsumeTicket(jti, now) =>
      if TicketMatches(db, jti, now)
      then db.tickets[jti := db.tickets[jti].(consumedAt := Some(now))]
      else db.tickets
    case PruneTickets(now) => map i | i in db.tickets && db.tickets[i].expiresAt >= now :: db.tickets[i]
    case _ => db.tickets
  }

  function RefreshesAfter(db: Database, s: Statement): map<TokenId, Refresh> {
    match s
    case Remove(_, _) => map[]
    case RegisterRefresh(jti, expiresAt) =>
      if Removed(db) || jti in db.refreshes then db.refreshes else db.refreshes[jti := Refresh(expiresAt, None, None)]
    case Rotate(jti, next, nextExpiresAt, now) =>
      if RefreshMatches(db, jti, now) && next !in db.refreshes
      then
        var row := db.refreshes[jti];
        var consumedAt := if row.consumedAt.Some? then row.consumedAt else Some(now);
        db.refreshes[jti := Refresh(row.expiresAt, consumedAt, Some(next))][next := Refresh(nextExpiresAt, None, None)]
      else db.refreshes
    case PruneRefreshes(now) => map i | i in db.refreshes && db.refreshes[i].expiresAt >= now :: db.refreshes[i]
    case _ => db.refreshes
  }

  function RunsAfter(db: Database, s: Statement): map<InvocationId, GovernedRun> {
    match s
    case StartRun(invocation, now) =>
      if invocation in db.runs then db.runs else db.runs[invocation := GovernedRun(RunRunning, now, None)]
    case FinishRun(invocation, ok, now) =>
      if invocation in db.runs && db.runs[invocation].status.RunRunning?
      then db.runs[invocation := db.runs[invocation].(
                     status := if ok then RunSucceeded else RunFailed, completedAt := Some(now))]
      else db.runs
    case TimeOutRuns(before, now) =>
      map i | i in db.runs ::
        if db.runs[i].status.RunRunning? && db.runs[i].startedAt < before
        then db.runs[i].(status := RunFailed, completedAt := Some(now)) else db.runs[i]
    case PruneRuns(before) => map i | i in db.runs && !Before(db.runs[i].completedAt, before) :: db.runs[i]
    case _ => db.runs
  }

  predicate Pruned(row: Job, before: Time) { Before(row.completedAt, before) && Settled(row) }

  function JobsAfter(db: Database, s: Statement): map<JobId, Job> {
    match s
    case Enqueue(id, event, prompt, now, expiresAt) =>
      if Removed(db) || Conflicts(db.jobs, id, event) then db.jobs
      else db.jobs[id := NewJob(event, prompt, now, expiresAt)]
    case PruneJobs(before) => map id | id in db.jobs && !Pruned(db.jobs[id], before) :: db.jobs[id]
    case _ => UpdateJobs(s, db.jobs)
  }

  /** One committed statement or transaction; a transaction that aborts leaves every row alone. */
  function Exec(db: Database, s: Statement): Database {
    Database(ClawAfter(db, s), GrantsAfter(db, s), TicketsAfter(db, s), RefreshesAfter(db, s), RunsAfter(db, s),
             JobsAfter(db, s))
  }

  /** Whether the statement's `rowCount` was 1 (or its INSERT took place). */
  predicate Took(db: Database, s: Statement) {
    match s
    case Enqueue(id, event, _, _, _) => !Removed(db) && !Conflicts(db.jobs, id, event)
    case ConsumeGrant(invocation, jti, digest, now) => GrantMatches(db, invocation, jti, digest, now)
    case ConsumeTicket(jti, now) => TicketMatches(db, jti, now)
    case Rotate(jti, next, _, now) => RefreshMatches(db, jti, now) && next !in db.refreshes
    case _ => exists id :: id in db.jobs && Where(s, id, db.jobs[id])
  }
}
