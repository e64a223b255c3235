/**
 Runs of any number of coordinator instances over one claw's rows.  Instances interleave at statement
 granularity; time stamps and identifiers in a statement are arbitrary, so the results do not depend on
 synchronised clocks or on fresh reads.  The one value a later statement must take from an earlier one is the
 attempt count of a claimed reply, which is why an instance remembers its post in flight.
 */
module CoordinatorRuns {
  import opened Common
  import opened CoordinatorTables

  /** An instance is between claiming a reply and recording the verdict, or not. */
  datatype Instance = Idle | Posting(job: JobId, attempts: nat)

  datatype Verdict = Posted | RetryableError | PermanentError | Undeliverable

  datatype System = System(db: Database, instances: map<OwnerId, Instance>)

  datatype Event =
    | Sql(s: Statement)
    | Boot(owner: OwnerId)
    | Claim(owner: OwnerId, job: JobId, now: Time)
    | Report(owner: OwnerId, verdict: Verdict)
    | Abandon(owner: OwnerId)

  /** Statements that only `#deliver` issues; a run reaches them through Claim and Report. */
  predicate OfDelivery(s: Statement) {
    s.ClaimReply? || s.RecordDelivered? || s.RecordRetry? || s.RecordTerminal? || s.RecordUndeliverable?
  }

  /** The verdict statement of `#deliver`, from the row returned by the claim. */
  function VerdictStatement(owner: OwnerId, job: JobId, attempts: nat, verdict: Verdict): Statement {
    match verdict
    case Posted => RecordDelivered(job, owner)
    case Undeliverable => RecordUndeliverable(job, owner)
    case PermanentError => RecordTerminal(job, owner, attempts + 1)
    case RetryableError =>
      if attempts + 1 >= MAX_ATTEMPTS then RecordTerminal(job, owner, attempts + 1)
      else RecordRetry(job, owner, attempts + 1)
  }

  /** One event; an event whose guard fails changes nothing.  A fresh process has a fresh owner id. */
  function Apply(sys: System, e: Event): System {
    match e
    case Sql(s) => if OfDelivery(s) then sys else sys.(db := Exec(sys.db, s))
    case Boot(owner) => if owner in sys.instances then sys else sys.(instances := sys.instances[owner := Idle])
    case Claim(owner, job, now) =>
      var s := ClaimReply(job, owner, now);
      if owner in sys.instances && sys.instances[owner].Idle? && job in sys.db.jobs && Where(s, job, sys.db.jobs[job])
      then System(Exec(sys.db, s), sys.instances[owner := Posting(job, sys.db.jobs[job].attempts)])
      else sys
    case Report(owner, verdict) =>
      if owner in sys.instances && sys.instances[owner].Posting?
      then
        var flight := sys.instances[owner];
        System(Exec(sys.db, VerdictStatement(owner, flight.job, flight.attempts, verdict)),
               sys.instances[owner := Idle])
      else sys
    case Abandon(owner) =>
      if owner in sys.instances then sys.(instances := sys.instances[owner := Idle]) else sys
  }

  function Run(sys: System, events: seq<Event>): System {
    if events == [] then sys else Apply(Run(sys, events[..|events| - 1]), events[|events| - 1])
  }

  const INITIAL := System(EMPTY, map[])

  // ---------- Row coherence ----------

  ghost predicate Coherent(row: Job) {
    && (row.status.Pending? ==> row.runtime.None? && row.claimedAt.None?)
    && (row.status.Offered? || row.status.Running? ==> row.runtime.Some? && row.claimedAt.Some?)
    && (Active(row) <==> row.completedAt.None?)
    && (Active(row) <==> row.payload.Some?)
    && (Active(row) <==> row.delivery.NoReply?)
    && (row.response.Some? <==> AwaitingDelivery(row))
    && (row.delivery.Delivering? <==> row.deliveryOwner.Some?)
    && (row.delivery.Delivering? <==> row.deliveryClaimedAt.Some?)
    && (Active(row) ==> row.attempts == 0)
    && (!Settled(row) ==> row.attempts < MAX_ATTEMPTS)
    && row.attempts <= MAX_ATTEMPTS
  }

  /** A verdict counts exactly one more attempt than the row it is applied to. */
  ghost predicate CountsOnce(s: Statement, row: Job) {
    && (s.RecordRetry? ==> s.attempts == row.attempts + 1 < MAX_ATTEMPTS)
    && (s.RecordTerminal? ==> s.attempts == row.attempts + 1)
  }

  lemma UpdateKeepsCoherence(s: Statement, id: JobId, row: Job)
    requires Coherent(row)
    requires Where(s, id, row) ==> CountsOnce(s, row)
    ensures Coherent(UpdateRow(s, id, row))
  {
    match s {
      case Complete(_, _, ok, _, _, _) =>
      case _ =>
    }
  }

  lemma JobsAfterRow(db: Database, s: Statement, id: JobId)
    ensures var after := JobsAfter(db, s);
            && (id in after && id in db.jobs ==> after[id] == UpdateRow(s, id, db.jobs[id]))
            && (id in after && id !in db.jobs ==>
                  && s.Enqueue? && !Removed(db) && !Conflicts(db.jobs, s.id, s.event) && s.id == id
                  && after[id] == NewJob(s.event, s.prompt, s.now, s.expiresAt))
            && (id !in after && id in db.jobs ==> s.PruneJobs? && Settled(db.jobs[id]))
  {
  }

  /** What a statement does to one row of the job table. */
  lemma ExecRow(db: Database, s: Statement, id: JobId)
    ensures id in Exec(db, s).jobs && id in db.jobs ==> Exec(db, s).jobs[id] == UpdateRow(s, id, db.jobs[id])
    ensures id in Exec(db, s).jobs && id !in db.jobs ==>
              Took(db, s) && s.Enqueue? && s.id == id &&
              Exec(db, s).jobs[id] == NewJob(s.event, s.prompt, s.now, s.expiresAt)
    ensures id !in Exec(db, s).jobs && id in db.jobs ==> s.PruneJobs? && Settled(db.jobs[id])
  {
    JobsAfterRow(db, s, id);
  }

  ghost predicate RowsCoherent(db: Database) { forall id :: id in db.jobs ==> Coherent(db.jobs[id]) }

  lemma ExecKeepsCoherence(db: Database, s: Statement)
    requires RowsCoherent(db)
    requires forall id :: id in db.jobs && Where(s, id, db.jobs[id]) ==> CountsOnce(s, db.jobs[id])
    ensures RowsCoherent(Exec(db, s))
  {
    forall id | id in Exec(db, s).jobs ensures Coherent(Exec(db, s).jobs[id]) {
      ExecRow(db, s, id);
      if id in db.jobs {
        UpdateKeepsCoherence(s, id, db.jobs[id]);
      }
    }
  }

  /** The attempt count an instance remembers is current while it still owns the row. */
  ghost predicate FlightsCurrent(sys: System) {
    forall owner :: owner in sys.instances && sys.instances[owner].Posting? ==>
                      FlightCurrent(sys.db, owner, sys.instances[owner].job, sys.instances[owner].attempts)
  }

  ghost predicate FlightCurrent(db: Database, owner: OwnerId, job: JobId, attempts: nat) {
    job in db.jobs && Holds(db.jobs[job], owner) ==> db.jobs[job].attempts == attempts
  }

  ghost predicate Inv(sys: System) { RowsCoherent(sys.db) && FlightsCurrent(sys) }

  /** Only a claim by the owner itself can make it hold a row it did not hold, and only its verdict can count. */
  lemma FlightSurvives(db: Database, s: Statement, owner: OwnerId, job: JobId, attempts: nat)
    requires FlightCurrent(db, owner, job, attempts)
    requires s.ClaimReply? ==> s.owner != owner
    requires s.RecordDelivered? || s.RecordRetry? || s.RecordTerminal? || s.RecordUndeliverable? ==> s.owner != owner
    ensures FlightCurrent(Exec(db, s), owner, job, attempts)
  {
    ExecRow(db, s, job);
    if job in db.jobs {
      HoldSurvives(s, job, db.jobs[job], owner);
    }
  }

  lemma HoldSurvives(s: Statement, job: JobId, row: Job, owner: OwnerId)
    requires s.ClaimReply? ==> s.owner != owner
    requires s.RecordDelivered? || s.RecordRetry? || s.RecordTerminal? || s.RecordUndeliverable? ==> s.owner != owner
    ensures Holds(UpdateRow(s, job, row), owner) ==> Holds(row, owner) && UpdateRow(s, job, row).attempts == row.attempts
  {
  }

  /** A statement that counts attempts rightly, and that only the owner it names may have a new post for. */
  lemma StatementKeepsInv(sys: System, s: Statement, instances: map<OwnerId, Instance>)
    requires Inv(sys)
    requires forall id :: id in sys.db.jobs && Where(s, id, sys.db.jobs[id]) ==> CountsOnce(s, sys.db.jobs[id])
    requires forall owner :: owner in instances && instances[owner].Posting? ==>
                               || FlightCurrent(Exec(sys.db, s), owner, instances[owner].job, instances[owner].attempts)
                               || (!Names(s, owner) && owner in sys.instances && instances[owner] == sys.instances[owner])
    ensures Inv(System(Exec(sys.db, s), instances))
  {
    ExecKeepsCoherence(sys.db, s);
    forall owner | owner in instances && instances[owner].Posting?
      ensures FlightCurrent(Exec(sys.db, s), owner, instances[owner].job, instances[owner].attempts)
    {
      if !FlightCurrent(Exec(sys.db, s), owner, instances[owner].job, instances[owner].attempts) {
        FlightSurvives(sys.db, s, owner, instances[owner].job, instances[owner].attempts);
      }
    }
  }

  predicate Names(s: Statement, owner: OwnerId) { OfDelivery(s) && s.owner == owner }

  lemma ClaimKeepsInv(sys: System, owner: OwnerId, job: JobId, now: Time)
    requires Inv(sys)
    ensures Inv(Apply(sys, Claim(owner, job, now)))
  {
    var s := ClaimReply(job, owner, now);
    if owner in sys.instances && sys.instances[owner].Idle? && job in sys.db.jobs && Where(s, job, sys.db.jobs[job]) {
      ExecRow(sys.db, s, job);
      StatementKeepsInv(sys, s, sys.instances[owner := Posting(job, sys.db.jobs[job].attempts)]);
    }
  }

  lemma ReportKeepsInv(sys: System, owner: OwnerId, verdict: Verdict)
    requires Inv(sys)
    ensures Inv(Apply(sys, Report(owner, verdict)))
  {
    if owner in sys.instances && sys.instances[owner].Posting? {
      var i := sys.instances[owner];
      assert FlightCurrent(sys.db, owner, i.job, i.attempts);
      StatementKeepsInv(sys, VerdictStatement(owner, i.job, i.attempts, verdict), sys.instances[owner := Idle]);
    }
  }

  lemma ApplyKeepsInv(sys: System, e: Event)
    requires Inv(sys)
    ensures Inv(Apply(sys, e))
  {
    match e
    case Sql(s) =>
      if !OfDelivery(s) {
        StatementKeepsInv(sys, s, sys.instances);
      }
    case Claim(owner, job, now) => ClaimKeepsInv(sys, owner, job, now);
    case Report(owner, verdict) => ReportKeepsInv(sys, owner, verdict);
    case _ =>
  }

  lemma {:induction false} RunKeepsInv(sys: System, events: seq<Event>)
    requires Inv(sys)
    ensures Inv(Run(sys, events))
  {
    if events != [] {
      RunKeepsInv(sys, events[..|events| - 1]);
      ApplyKeepsInv(Run(sys, events[..|events| - 1]), events[|events| - 1]);
    }
  }

  /** Every row of every reachable state is coherent. */
  lemma ReachableRowsAreCoherent(events: seq<Event>, id: JobId)
    requires id in Run(INITIAL, events).db.jobs
    ensures Coherent(Run(INITIAL, events).db.jobs[id])
  {
    RunKeepsInv(INITIAL, events);
  }

  // ---------- The two state graphs of a row ----------

  predicate StatusEdge(before: Status, after: Status) {
    || before == after
    || (before, after) in {(Pending, Offered), (Offered, Pending), (Offered, Running), (Running, Completed),
                           (Pending, Failed), (Offered, Failed), (Running, Failed), (Completed, Failed)}
  }

  predicate DeliveryEdge(before: Delivery, after: Delivery) {
    || before == after
    || (before, after) in {(NoReply, Undelivered), (NoReply, GivenUp), (Undelivered, Delivering), (Undelivered, GivenUp),
                           (Delivering, Undelivered), (Delivering, Delivered), (Delivering, GivenUp)}
  }

  /** A statement follows one edge of each graph; only removal turns a completed job into a failed one. */
  lemma UpdateFollowsEdges(s: Statement, id: JobId, row: Job)
    requires Coherent(row)
    ensures var after := UpdateRow(s, id, row);
            && StatusEdge(row.status, after.status)
            && DeliveryEdge(row.delivery, after.delivery)
            && (row.status.Completed? && after.status.Failed? ==> s.Remove? && AwaitingDelivery(row))
            && (Settled(row) ==> after == row)
            && (row.completedAt.Some? ==> after.completedAt == row.completedAt)
            && after.event == row.event && after.createdAt == row.createdAt && after.expiresAt == row.expiresAt
  {
  }

  /** Terminal delivery is absorbing: until retention prunes it, a settled row never changes again. */
  lemma {:induction false} SettledForever(sys: System, events: seq<Event>, id: JobId)
    requires Inv(sys) && id in sys.db.jobs && Settled(sys.db.jobs[id])
    requires forall i :: 0 <= i < |events| ==> id in Run(sys, events[..i]).db.jobs
    requires id in Run(sys, events).db.jobs
    ensures Run(sys, events).db.jobs[id] == sys.db.jobs[id]
  {
    if events != [] {
      var front := events[..|events| - 1];
      assert forall i :: 0 <= i <= |front| ==> front[..i] == events[..i];
      SettledForever(sys, front, id);
      RunKeepsInv(sys, front);
      var s := SqlOf(Run(sys, front), events[|events| - 1]);
      ApplyIsSql(Run(sys, front), events[|events| - 1]);
      ExecRow(Run(sys, front).db, s, id);
      UpdateFollowsEdges(s, id, sys.db.jobs[id]);
    }
  }

  /** The statement an event commits; an event that commits none is a statement that matches no row. */
  function SqlOf(sys: System, e: Event): Statement {
    match e
    case Sql(s) => if OfDelivery(s) then PruneRuns(0) else s
    case Claim(owner, job, now) =>
      if owner in sys.instances && sys.instances[owner].Idle? then ClaimReply(job, owner, now) else PruneRuns(0)
    case Report(owner, verdict) =>
      if owner in sys.instances && sys.instances[owner].Posting?
      then VerdictStatement(owner, sys.instances[owner].job, sys.instances[owner].attempts, verdict)
      else PruneRuns(0)
    case _ => PruneRuns(0)
  }

  lemma ApplyIsSql(sys: System, e: Event)
    ensures Apply(sys, e).db.jobs == Exec(sys.db, SqlOf(sys, e)).jobs
    ensures SqlOf(sys, e).Start? || SqlOf(sys, e).Enqueue? || SqlOf(sys, e).Complete? ==> e == Sql(SqlOf(sys, e))
  {
    var s := SqlOf(sys, e);
    if Apply(sys, e).db == sys.db {
      assert Exec(sys.db, s).jobs == sys.db.jobs || Apply(sys, e).db == Exec(sys.db, s);
    }
  }

  // ---------- A job starts at most once ----------

  function Level(db: Database, id: JobId): nat { if id in db.jobs && Waiting(db.jobs[id]) then 1 else 0 }

  predicate IsRunning(db: Database, id: JobId) { id in db.jobs && db.jobs[id].status.Running? }

  /** How often the job entered `running`, and how often a row with its id was inserted. */
  function Starts(sys: System, events: seq<Event>, id: JobId): nat {
    if events == [] then 0
    else
      var before := Run(sys, events[..|events| - 1]);
      Starts(sys, events[..|events| - 1], id) +
      if !IsRunning(before.db, id) && IsRunning(Run(sys, events).db, id) then 1 else 0
  }

  function Insertions(sys: System, events: seq<Event>, id: JobId): nat {
    if events == [] then 0
    else
      Insertions(sys, events[..|events| - 1], id) +
      if id !in Run(sys, events[..|events| - 1]).db.jobs && id in Run(sys, events).db.jobs then 1 else 0
  }

  /** In every run, a job enters `running` at most once per inserted row. */
  lemma {:induction false} StartsAtMostOnce(sys: System, events: seq<Event>, id: JobId)
    ensures Starts(sys, events, id) + Level(Run(sys, events).db, id)
         <= Insertions(sys, events, id) + Level(sys.db, id)
  {
    if events != [] {
      var before, last := Run(sys, events[..|events| - 1]), events[|events| - 1];
      StartsAtMostOnce(sys, events[..|events| - 1], id);
      ApplyIsSql(before, last);
      ExecRow(before.db, SqlOf(before, last), id);
    }
  }

  predicate RunningUnder(db: Database, id: JobId, runtime: RuntimeId) {
    IsRunning(db, id) && db.jobs[id].runtime == Some(runtime)
  }

  predicate OfferedTo(db: Database, id: JobId, runtime: RuntimeId) {
    id in db.jobs && db.jobs[id].status.Offered? && db.jobs[id].runtime == Some(runtime)
  }

  /** Event i starts the job under the runtime that holds its offer, and it runs under that runtime ever since. */
  ghost predicate StartedAt(sys: System, events: seq<Event>, id: JobId, runtime: RuntimeId, i: nat) {
    && i < |events|
    && OfferedTo(Run(sys, events[..i]).db, id, runtime)
    && events[i].Sql? && events[i].s.Start? && events[i].s.id == id && events[i].s.runtime == runtime
    && forall k {:trigger events[..k]} :: i < k <= |events| ==> RunningUnder(Run(sys, events[..k]).db, id, runtime)
  }

  lemma {:induction false} RunningWasStarted(sys: System, events: seq<Event>, id: JobId, runtime: RuntimeId)
    returns (i: nat)
    requires !IsRunning(sys.db, id)
    requires RunningUnder(Run(sys, events).db, id, runtime)
    ensures StartedAt(sys, events, id, runtime, i)
  {
    var front, last := events[..|events| - 1], events[|events| - 1];
    var before := Run(sys, front);
    var s := SqlOf(before, last);
    ApplyIsSql(before, last);
    ExecRow(before.db, s, id);
    assert events[..|events|] == events;
    if RunningUnder(before.db, id, runtime) {
      i := RunningWasStarted(sys, front, id, runtime);
      assert forall k {:trigger events[..k]} :: 0 <= k <= |front| ==> front[..k] == events[..k];
    } else {
      i := |front|;
      assert s.Start? && last == Sql(s);
    }
  }

  /** Only the runtime that held the offer when the job started can have a completion recorded. */
  lemma CompletionBelongsToStarter(
    sys: System, events: seq<Event>, id: JobId, runtime: RuntimeId, ok: bool, output: string, now: Time, error: string)
    returns (i: nat)
    requires !IsRunning(sys.db, id)
    requires Took(Run(sys, events).db, Complete(id, runtime, ok, output, now, error))
    ensures StartedAt(sys, events, id, runtime, i)
  {
    i := RunningWasStarted(sys, events, id, runtime);
  }

  /** A job goes back to `pending` only from an offer: a running or settled job never does. */
  lemma OnlyOffersAreReleased(sys: System, e: Event, id: JobId)
    requires id in sys.db.jobs && id in Apply(sys, e).db.jobs
    requires Apply(sys, e).db.jobs[id].status.Pending?
    ensures sys.db.jobs[id].status.Pending? || sys.db.jobs[id].status.Offered?
  {
    ApplyIsSql(sys, e);
    ExecRow(sys.db, SqlOf(sys, e), id);
  }

  // ---------- The removal tombstone ----------

  ghost predicate Tombstoned(db: Database) {
    && Removed(db)
    && db.grants == map[] && db.tickets == map[] && db.refreshes == map[]
    && !HasWork(db)
  }

  lemma RemovalTombstones(db: Database, now: Time, error: string)
    ensures Tombstoned(Exec(db, Remove(now, error)))
    ensures Generation(Exec(db, Remove(now, error))) > Generation(db)
  {
  }

  lemma ExecKeepsTombstone(db: Database, s: Statement)
    requires Tombstoned(db)
    ensures Tombstoned(Exec(db, s))
    ensures s.Enqueue? || s.ConsumeGrant? || s.ConsumeTicket? || s.Rotate? ==> !Took(db, s)
  {
    forall id | id in Exec(db, s).jobs
      ensures !Active(Exec(db, s).jobs[id]) && !AwaitingDelivery(Exec(db, s).jobs[id])
    {
      ExecRow(db, s, id);
    }
  }

  lemma GenerationNeverFalls(db: Database, s: Statement)
    ensures Generation(Exec(db, s)) >= Generation(db)
    ensures Removed(db) ==> Removed(Exec(db, s)) && Exec(db, s).claw.value.removedAt == db.claw.value.removedAt
  {
  }

  /**
   After removal commits, every state any instance reaches is still tombstoned, no later enqueue or consume takes
   effect there, and the reset generation stays above the one before removal.
   */
  lemma {:induction false} TombstoneIsStable(
    sys: System, now: Time, error: string, events: seq<Event>, s: Statement)
    ensures var later := Run(Apply(sys, Sql(Remove(now, error))), events);
            && Tombstoned(later.db)
            && Generation(later.db) > Generation(sys.db)
            && (s.Enqueue? || s.ConsumeGrant? || s.ConsumeTicket? || s.Rotate? ==> !Took(later.db, s))
  {
    RemovalTombstones(sys.db, now, error);
    var start := Apply(sys, Sql(Remove(now, error)));
    if events == [] {
      ExecKeepsTombstone(start.db, s);
    } else {
      var before, last := Run(start, events[..|events| - 1]), events[|events| - 1];
      TombstoneIsStable(sys, now, error, events[..|events| - 1], s);
      ApplyKeepsTombstone(before, last);
      ExecKeepsTombstone(Run(start, events).db, s);
    }
  }

  lemma ApplyKeepsTombstone(sys: System, e: Event)
    requires Tombstoned(sys.db)
    ensures Tombstoned(Apply(sys, e).db)
    ensures Generation(Apply(sys, e).db) >= Generation(sys.db)
  {
    var s := SqlOf(sys, e);
    ExecKeepsTombstone(sys.db, s);
    GenerationNeverFalls(sys.db, s);
    assert Apply(sys, e).db == sys.db || Apply(sys, e).db == Exec(sys.db, s);
  }

  // ---------- What several instances do not guarantee ----------

  /**
   Delivery is at least once across processes: while one instance posts a reply, another one starts a second post
   of the same reply exactly when the first one's lease has run out.
   */
  lemma SecondPostIffLeaseExpired(sys: System, first: OwnerId, second: OwnerId, job: JobId, now: Time)
    requires Inv(sys) && first in sys.instances && sys.instances[first].Posting? && sys.instances[first].job == job
    requires job in sys.db.jobs && Holds(sys.db.jobs[job], first)
    requires second in sys.instances && sys.instances[second].Idle?
    ensures var after := Apply(sys, Claim(second, job, now));
            && after.instances[first] == sys.instances[first]
            && (after.instances[second].Posting? <==> sys.db.jobs[job].deliveryClaimedAt.value + DELIVERY_LEASE < now)
            && (after.instances[second].Posting? ==> after.instances[second] == after.instances[first])
  {
    assert Coherent(sys.db.jobs[job]);
  }

  lemma RunSnoc(sys: System, events: seq<Event>, e: Event)
    ensures Run(sys, events + [e]) == Apply(Run(sys, events), e)
  {
    assert (events + [e])[..|events|] == events;
  }

  /** So two idle instances can both end up posting the same undelivered reply. */
  lemma TwoPostsInFlight(sys: System, first: OwnerId, second: OwnerId, job: JobId, now: Time)
    requires Inv(sys) && job in sys.db.jobs && sys.db.jobs[job].delivery.Undelivered? && first != second
    requires first in sys.instances && sys.instances[first].Idle?
    requires second in sys.instances && sys.instances[second].Idle?
    ensures var after := Run(sys, [Claim(first, job, now), Claim(second, job, now + DELIVERY_LEASE + 1)]);
            && first in after.instances && second in after.instances
            && after.instances[first] == after.instances[second] == Posting(job, sys.db.jobs[job].attempts)
  {
    var claims := [Claim(first, job, now), Claim(second, job, now + DELIVERY_LEASE + 1)];
    RunSnoc(sys, [], claims[0]);
    RunSnoc(sys, [claims[0]], claims[1]);
    assert [] + [claims[0]] == [claims[0]] && [claims[0]] + [claims[1]] == claims;
    var mid := Apply(sys, claims[0]);
    ApplyKeepsInv(sys, claims[0]);
    ExecRow(sys.db, ClaimReply(job, first, now), job);
    SecondPostIffLeaseExpired(mid, first, second, job, now + DELIVERY_LEASE + 1);
  }
}
