/** `SELECT ... ORDER BY column, id LIMIT n` over job rows (aws/postgres-coordinator.ts:529-552, 722-746). */
module JobSelection {
  import opened Common
  import opened CoordinatorTables

  datatype OrderBy = ByCreation | ByClaim | ByExpiry | ByCompletion

  /** The sort column.  The queries select rows in which it is not NULL. */
  function Column(order: OrderBy, row: Job): Time {
    match order
    case ByCreation => row.createdAt
    case ByClaim => if row.claimedAt.Some? then row.claimedAt.value else 0
    case ByExpiry => row.expiresAt
    case ByCompletion => if row.completedAt.Some? then row.completedAt.value else 0
  }

  predicate Precedes(order: OrderBy, jobs: map<JobId, Job>, a: JobId, b: JobId)
    requires a in jobs && b in jobs
  {
    Column(order, jobs[a]) < Column(order, jobs[b]) || (Column(order, jobs[a]) == Column(order, jobs[b]) && a < b)
  }

  function Elements(ids: seq<JobId>): set<JobId> { set id | id in ids }

  /** The ids are the first `limit` matching rows, in order. */
  ghost predicate IsBatch(order: OrderBy, jobs: map<JobId, Job>, matching: set<JobId>, limit: nat, ids: seq<JobId>)
    requires matching <= jobs.Keys
  {
    && |ids| == (if |matching| < limit then |matching| else limit)
    && Elements(ids) <= matching
    && Sorted(order, jobs, ids)
    && AllPrecede(order, jobs, Elements(ids), matching - Elements(ids))
  }

  ghost predicate Sorted(order: OrderBy, jobs: map<JobId, Job>, ids: seq<JobId>)
    requires Elements(ids) <= jobs.Keys
  {
    forall i, j :: 0 <= i < j < |ids| ==> ids[i] in jobs && ids[j] in jobs && Precedes(order, jobs, ids[i], ids[j])
  }

  ghost predicate AllPrecede(order: OrderBy, jobs: map<JobId, Job>, first: set<JobId>, rest: set<JobId>)
    requires first <= jobs.Keys && rest <= jobs.Keys
  {
    forall a, b :: a in first && b in rest ==> Precedes(order, jobs, a, b)
  }

  method SelectFirst(order: OrderBy, jobs: map<JobId, Job>, matching: set<JobId>) returns (first: JobId)
    requires matching <= jobs.Keys && matching != {}
    ensures first in matching
    ensures forall other :: other in matching && other != first ==> Precedes(order, jobs, first, other)
  {
    first :| first in matching;
    var rest := matching - {first};
    while rest != {}
      invariant rest <= matching && first in matching && first !in rest
      invariant forall other :: other in matching && other !in rest && other != first ==> Precedes(order, jobs, first, other)
      decreases rest
    {
      var next :| next in rest;
      if Precedes(order, jobs, next, first) {
        first := next;
      }
      rest := rest - {next};
    }
  }

  method SelectBatch(order: OrderBy, jobs: map<JobId, Job>, matching: set<JobId>, limit: nat)
    returns (ids: seq<JobId>)
    requires matching <= jobs.Keys
    ensures IsBatch(order, jobs, matching, limit, ids)
  {
    ids := [];
    var rest := matching;
    while |ids| < limit && rest != {}
      invariant rest <= matching && |ids| + |rest| == |matching| && |ids| <= limit
      invariant Elements(ids) == matching - rest
      invariant Sorted(order, jobs, ids)
      invariant AllPrecede(order, jobs, Elements(ids), rest)
      decreases rest
    {
      var next := SelectFirst(order, jobs, rest);
      forall i | 0 <= i < |ids| ensures ids[i] in jobs && Precedes(order, jobs, ids[i], next) {
        assert ids[i] in Elements(ids);
      }
      assert Elements(ids + [next]) == Elements(ids) + {next};
      ids := ids + [next];
      rest := rest - {next};
    }
    assert matching - Elements(ids) == rest;
  }

  ghost predicate Distinct(ids: seq<JobId>) { forall i, j :: 0 <= i < j < |ids| ==> ids[i] != ids[j] }

  lemma BatchIsDistinct(order: OrderBy, jobs: map<JobId, Job>, matching: set<JobId>, limit: nat, ids: seq<JobId>)
    requires matching <= jobs.Keys && IsBatch(order, jobs, matching, limit, ids)
    ensures Distinct(ids)
  {
  }

  /** A batch depends only on the sort column of the matching rows. */
  lemma BatchTransfers(
    order: OrderBy, jobs: map<JobId, Job>, other: map<JobId, Job>, matching: set<JobId>, limit: nat, ids: seq<JobId>)
    requires matching <= jobs.Keys && matching <= other.Keys && IsBatch(order, jobs, matching, limit, ids)
    requires forall id :: id in matching ==> Column(order, jobs[id]) == Column(order, other[id])
    ensures IsBatch(order, other, matching, limit, ids)
  {
    forall i, j | 0 <= i < j < |ids|
      ensures ids[i] in other && ids[j] in other && Precedes(order, other, ids[i], ids[j])
    {
      assert ids[i] in Elements(ids) && ids[j] in Elements(ids);
    }
  }
}
