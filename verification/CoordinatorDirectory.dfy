/** The fleet-wide sweep over all claws (aws/postgres-coordinator.ts:139-193, `AwsCoordinatorDirectory`). */
module CoordinatorDirectory {
  import opened Common
  import opened CoordinatorTables
  import opened CoordinatorRuns
  import opened CoordinatorEffects
  import opened ClawCoordinator

  /** The rows that make a claw a candidate of the sweep. */
  predicate Eligible(db: Database, now: Time) {
    || HasWork(db)
    || (exists id :: id in db.jobs && Pruned(db.jobs[id], now - JOB_RETENTION))
    || (exists i :: i in db.grants && db.grants[i].expiresAt < now)
    || (exists i :: i in db.refreshes && db.refreshes[i].expiresAt < now)
    || (exists i :: i in db.tickets && db.tickets[i].expiresAt < now)
    || (exists i :: i in db.runs &&
                    ((db.runs[i].status.RunRunning? && db.runs[i].startedAt < now - RUNNING_TIMEOUT) ||
                     Before(db.runs[i].completedAt, now - RUN_RETENTION)))
  }

  function EligibleClaws(claws: map<ClawId, Database>, now: Time): set<ClawId> {
    set claw | claw in claws && Eligible(claws[claw], now)
  }

  function Above(claws: set<ClawId>, cursor: int): set<ClawId> { set claw | claw in claws && claw > cursor }

  ghost predicate Ascending(page: seq<ClawId>) { forall i, j :: 0 <= i < j < |page| ==> page[i] < page[j] }

  function Members(page: seq<ClawId>): set<ClawId> { set claw | claw in page }

  /** `ORDER BY claw_id LIMIT n` */
  method FirstClaws(claws: set<ClawId>, limit: nat) returns (page: seq<ClawId>)
    ensures Ascending(page) && Members(page) <= claws
    ensures |page| <= limit && (|page| < limit ==> Members(page) == claws)
    ensures forall a, b :: a in Members(page) && b in claws - Members(page) ==> a < b
  {
    page := [];
    var rest := claws;
    while |page| < limit && rest != {}
      invariant rest <= claws && Members(page) == claws - rest && |page| <= limit
      invariant Ascending(page) && forall a, b :: a in Members(page) && b in rest ==> a < b
      decreases rest
    {
      var next := Least(rest);
      forall i | 0 <= i < |page| ensures page[i] < next {
        assert page[i] in Members(page);
      }
      assert Members(page + [next]) == Members(page) + {next};
      page := page + [next];
      rest := rest - {next};
    }
    assert claws - Members(page) == rest;
  }

  method Least(claws: set<ClawId>) returns (least: ClawId)
    requires claws != {}
    ensures least in claws && forall other :: other in claws ==> least <= other
  {
    least :| least in claws;
    var rest := claws - {least};
    while rest != {}
      invariant least in claws && rest <= claws
      invariant forall other :: other in claws && other !in rest ==> least <= other
      decreases rest
    {
      var next :| next in rest;
      if next < least {
        least := next;
      }
      rest := rest - {next};
    }
  }

  function RowsOf(claws: map<ClawId, Database>, claw: ClawId): Database {
    if claw in claws then claws[claw] else EMPTY
  }

  ghost predicate AllCoherent(claws: map<ClawId, Database>) {
    forall claw :: RowsCoherent(RowsOf(claws, claw))
  }

  /** How a sweep relates the rows before and after it, and the batches it worked through. */
  type Effect = (Database, Database, Sweep) -> bool

  ghost function SweepAt(now: Time): Effect { (before, after, w) => SweepStep(before, after, now, w) }

  ghost predicate Covers(effect: Effect, now: Time) {
    forall before, after, w :: SweepStep(before, after, now, w) ==> effect(before, after, w)
  }

  /** The claws in `visited` were swept once since `start`, and no other claw's rows changed. */
  ghost predicate Swept(
    start: map<ClawId, Database>, current: map<ClawId, Database>, effect: Effect, visited: set<ClawId>,
    sweeps: map<ClawId, Sweep>)
  {
    && visited <= start.Keys && visited <= sweeps.Keys
    && (forall claw :: claw in visited ==> effect(start[claw], RowsOf(current, claw), sweeps[claw]))
    && (forall claw :: claw !in visited ==> RowsOf(current, claw) == RowsOf(start, claw))
  }

  lemma SweptGrows(
    start: map<ClawId, Database>, before: map<ClawId, Database>, after: map<ClawId, Database>, effect: Effect,
    claw: ClawId, visited: set<ClawId>, sweeps: map<ClawId, Sweep>, w: Sweep)
    requires AllCoherent(before) && Swept(start, before, effect, visited, sweeps)
    requires claw in start && claw !in visited
    requires effect(RowsOf(before, claw), RowsOf(after, claw), w) && RowsCoherent(RowsOf(after, claw))
    requires forall other :: other != claw ==> RowsOf(after, other) == RowsOf(before, other)
    ensures AllCoherent(after) && Swept(start, after, effect, visited + {claw}, sweeps[claw := w])
  {
    assert RowsOf(before, claw) == start[claw];
    forall other ensures RowsCoherent(RowsOf(after, other)) {
      assert other == claw || RowsOf(after, other) == RowsOf(before, other);
    }
  }

  class AwsCoordinatorDirectory {
    const postgres: Postgres
    const slackToken: bool
    var coordinators: map<ClawId, AwsClawCoordinator>
    var nextOwner: OwnerId

    constructor (postgres: Postgres, slackToken: bool)
      ensures Valid() && this.postgres == postgres
    {
      this.postgres := postgres;
      this.slackToken := slackToken;
      this.coordinators := map[];
      this.nextOwner := 0;
    }

    ghost predicate Valid()
      reads this
    {
      forall claw :: claw in coordinators ==> coordinators[claw].claw == claw && coordinators[claw].postgres == postgres
    }

    /** `getByName`: one coordinator per claw and process, created on first use. */
    method GetByName(claw: ClawId) returns (coordinator: AwsClawCoordinator)
      requires Valid()
      modifies this
      ensures Valid() && coordinator.claw == claw && coordinator.postgres == postgres
      ensures claw in coordinators && coordinators[claw] == coordinator
      ensures forall other :: other in old(coordinators) ==>
                                other in coordinators && coordinators[other] == old(coordinators)[other]
    {
      if claw !in coordinators {
        coordinator := new AwsClawCoordinator(postgres, claw, nextOwner, slackToken);
        nextOwner := nextOwner + 1;
        coordinators := coordinators[claw := coordinator];
      }
      coordinator := coordinators[claw];
    }

    method SweepClaw(
      claw: ClawId, now: Time, ghost effect: Effect, ghost start: map<ClawId, Database>, ghost visited: set<ClawId>,
      ghost sweeps: map<ClawId, Sweep>)
      returns (ghost w: Sweep)
      requires Valid() && AllCoherent(postgres.claws) && claw !in visited && claw in start && Covers(effect, now)
      requires Swept(start, postgres.claws, effect, visited, sweeps)
      modifies this, postgres
      ensures Valid() && AllCoherent(postgres.claws)
      ensures Swept(start, postgres.claws, effect, visited + {claw}, sweeps[claw := w])
    {
      ghost var before := postgres.claws;
      var coordinator := GetByName(claw);
      w := coordinator.CleanupSweep(now);
      assert coordinator.Rows() == RowsOf(postgres.claws, claw);
      assert forall other :: other != claw ==> postgres.Rows(other) == RowsOf(before, other);
      SweptGrows(start, before, postgres.claws, effect, claw, visited, sweeps, w);
    }

    /**
     `cleanupSweep(limit, now)`: every claw that is eligible when the sweep begins is swept exactly once, in
     ascending order, and nothing else changes.  An invalid limit is refused.
     */
    method CleanupSweep(limit: int, now: Time)
      returns (swept: Result<nat, string>, ghost visited: seq<ClawId>, ghost sweeps: map<ClawId, Sweep>)
      requires Valid() && AllCoherent(postgres.claws)
      modifies this, postgres
      ensures Valid() && AllCoherent(postgres.claws)
      ensures swept.Failure? <==> limit < 1 || limit > 1_000
      ensures swept.Failure? ==> postgres.claws == old(postgres.claws)
      ensures swept.Success? ==>
                && Ascending(visited) && Members(visited) == EligibleClaws(old(postgres.claws), now)
                && swept.value == |visited|
                && Swept(old(postgres.claws), postgres.claws, SweepAt(now), Members(visited), sweeps)
    {
      visited, sweeps := [], map[];
      if limit < 1 || limit > 1_000 {
        swept := Failure("coordinator cleanup limit is invalid");
        return;
      }
      var total;
      total, visited, sweeps := SweepPages(limit, now, SweepAt(now));
      swept := Success(total);
    }

    /** The paging loop: read the next claws above the cursor, sweep them, move the cursor. */
    method SweepPages(limit: nat, now: Time, ghost effect: Effect)
      returns (total: nat, ghost visited: seq<ClawId>, ghost sweeps: map<ClawId, Sweep>)
      requires Valid() && AllCoherent(postgres.claws) && Covers(effect, now) && limit > 0
      modifies this, postgres
      ensures Valid() && AllCoherent(postgres.claws)
      ensures Ascending(visited) && Members(visited) == EligibleClaws(old(postgres.claws), now)
      ensures total == |visited|
      ensures Swept(old(postgres.claws), postgres.claws, effect, Members(visited), sweeps)
    {
      visited, sweeps, total := [], map[], 0;
      ghost var start := postgres.claws;
      ghost var eligible := EligibleClaws(start, now);
      var cursor: int := -1;
      assert Above(eligible, -1) == eligible;
      while true
        invariant Valid() && AllCoherent(postgres.claws)
        invariant Ascending(visited) && Members(visited) == eligible - Above(eligible, cursor)
        invariant total == |visited| && Swept(start, postgres.claws, effect, Members(visited), sweeps)
        decreases Above(eligible, cursor)
      {
        var candidates := Above(EligibleClaws(postgres.claws, now), cursor);
        CandidatesAreRest(start, postgres.claws, now, cursor, Members(visited));
        var page := FirstClaws(candidates, limit);
        PageExtends(visited, page, eligible, cursor);
        visited, sweeps := SweepPage(page, now, effect, start, visited, sweeps);
        total := total + |page|;
        if |page| < limit {
          return;
        }
        cursor := page[|page| - 1];
      }
    }

    method SweepPage(
      page: seq<ClawId>, now: Time, ghost effect: Effect, ghost start: map<ClawId, Database>,
      ghost before: seq<ClawId>, ghost sweptBefore: map<ClawId, Sweep>)
      returns (ghost visited: seq<ClawId>, ghost sweeps: map<ClawId, Sweep>)
      requires Valid() && AllCoherent(postgres.claws) && Covers(effect, now)
      requires Ascending(before + page) && Members(page) <= start.Keys
      requires Swept(start, postgres.claws, effect, Members(before), sweptBefore)
      modifies this, postgres
      ensures Valid() && AllCoherent(postgres.claws) && visited == before + page
      ensures Swept(start, postgres.claws, effect, Members(visited), sweeps)
    {
      visited, sweeps := before, sweptBefore;
      for i := 0 to |page|
        invariant Valid() && AllCoherent(postgres.claws) && visited == before + page[..i]
        invariant Swept(start, postgres.claws, effect, Members(visited), sweeps)
      {
        assert page[i] in Members(page);
        assert visited == (before + page)[..|before| + i] && page[i] == (before + page)[|before| + i];
        ghost var w := SweepClaw(page[i], now, effect, start, Members(visited), sweeps);
        assert Members(visited + [page[i]]) == Members(visited) + {page[i]};
        sweeps := sweeps[page[i] := w];
        visited := visited + [page[i]];
        assert page[..i + 1] == page[..i] + [page[i]];
      }
      assert page[..|page|] == page;
    }
  }

  /** Beyond the cursor nothing has been swept yet, so the same claws are eligible as at the start. */
  lemma CandidatesAreRest(
    start: map<ClawId, Database>, current: map<ClawId, Database>, now: Time, cursor: int, visited: set<ClawId>)
    requires visited == EligibleClaws(start, now) - Above(EligibleClaws(start, now), cursor)
    requires forall claw :: claw !in visited ==> RowsOf(current, claw) == RowsOf(start, claw)
    ensures Above(EligibleClaws(current, now), cursor) == Above(EligibleClaws(start, now), cursor)
  {
    assert !Eligible(EMPTY, now);
    forall claw | claw > cursor
      ensures claw in EligibleClaws(current, now) <==> claw in EligibleClaws(start, now)
    {
      assert claw !in visited;
    }
  }

  /** A page continues the ascending list, and a full page moves the cursor to its last claw. */
  lemma PageExtends(before: seq<ClawId>, page: seq<ClawId>, eligible: set<ClawId>, cursor: int)
    requires Ascending(before) && Ascending(page) && Members(page) <= Above(eligible, cursor)
    requires Members(before) == eligible - Above(eligible, cursor)
    requires forall a, b :: a in Members(page) && b in Above(eligible, cursor) - Members(page) ==> a < b
    ensures Ascending(before + page)
    ensures Members(page) == Above(eligible, cursor) ==> Members(before + page) == eligible
    ensures |page| > 0 ==>
              && Members(before + page) == eligible - Above(eligible, page[|page| - 1])
              && Above(eligible, page[|page| - 1]) < Above(eligible, cursor)
  {
    forall i, j | 0 <= i < j < |before + page| ensures (before + page)[i] < (before + page)[j] {
      if i < |before| <= j {
        assert before[i] in Members(before) && page[j - |before|] in Members(page);
      }
    }
    assert Members(before + page) == Members(before) + Members(page);
    if |page| > 0 {
      var last := page[|page| - 1];
      assert last in Members(page);
      forall claw | claw in eligible ensures claw in Above(eligible, last) <==> claw !in Members(before + page) {
        if claw in Above(eligible, cursor) - Members(page) {
          assert last < claw;
        }
      }
      assert last in Above(eligible, cursor) && last !in Above(eligible, last);
    }
  }
}
