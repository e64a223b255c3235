/**
 Every run of reply delivery in the Durable Object coordinator (worker/claw-coordinator.ts:193-225, 330-351,
 479-572).  A Durable Object is one JavaScript isolate: each event below is a synchronous stretch between two
 `await`s, and any other event may come in between.  The object does not crash; job ids are never reused.
 */
module DeliveryRuns {
  import opened Common

  type JobId = nat
  type ActivationId = nat

  const MAX_ATTEMPTS: nat := 5

  datatype Delivery = NoReply | Undelivered | Delivered | GivenUp

  /** The columns of a job row that delivery reads and writes. */
  datatype Row = Row(active: bool, delivery: Delivery, attempts: nat)

  /** A running `#deliverPending`: its row snapshot, and how far it has come. */
  datatype Stage = Decrypting | Posting | Done
  datatype Activation = Activation(job: JobId, attempts: nat, stage: Stage)

  /** `used`, `posts` and `succeeded` are history: ids ever inserted, posts made, jobs with an accepted post. */
  datatype Worker = Worker(
    rows: map<JobId, Row>, activations: map<ActivationId, Activation>, deliveries: map<JobId, ActivationId>,
    nextActivation: ActivationId, used: set<JobId>, posts: map<JobId, nat>, succeeded: set<JobId>)

  const INITIAL := Worker(map[], map[], map[], 0, {}, map[], {})

  datatype Event =
    | Enqueue(id: JobId)
    | Settle(id: JobId)
    | PrepareForRemoval
    | Prune(ids: set<JobId>)
    | Deliver(id: JobId, configured: bool)
    | Post(a: ActivationId)
    | PostAccepted(a: ActivationId)
    | PostFailed(a: ActivationId, permanent: bool)
    | Finally(a: ActivationId)

  /** A new row has a fresh id, pruning takes finished rows only, and an activation goes through its stages. */
  predicate Enabled(s: Worker, e: Event) {
    match e
    case Enqueue(id) => id !in s.used
    case Prune(ids) => forall id :: id in ids && id in s.rows ==> s.rows[id].delivery in {Delivered, GivenUp}
    case Post(a) => a in s.activations && s.activations[a].stage.Decrypting?
    case PostAccepted(a) => a in s.activations && s.activations[a].stage.Posting?
    case PostFailed(a, _) => a in s.activations && !s.activations[a].stage.Done?
    case Finally(a) => a in s.activations && s.activations[a].stage.Done?
    case _ => true
  }

  function Posts(s: Worker, id: JobId): nat { if id in s.posts then s.posts[id] else 0 }

  predicate Owed(rows: map<JobId, Row>, id: JobId) { id in rows && rows[id].delivery.Undelivered? }

  function Failed(row: Row): Row {
    if row.active || row.delivery.Undelivered? then row.(active := false, delivery := GivenUp) else row
  }

  function SetDelivery(rows: map<JobId, Row>, id: JobId, delivery: Delivery): map<JobId, Row> {
    if id in rows then rows[id := rows[id].(delivery := delivery)] else rows
  }

  /** `#deliver` and the synchronous start of `#deliverPending`, for a job without a running delivery */
  function Started(s: Worker, id: JobId, configured: bool): Worker {
    var owed := Owed(s.rows, id);
    s.(rows := if owed && !configured then SetDelivery(s.rows, id, GivenUp) else s.rows,
    activations := s.activations[s.nextActivation := Activation(
      id, if id in s.rows then s.rows[id].attempts else 0, if owed && configured then Decrypting else Done)],
    deliveries := s.deliveries[id := s.nextActivation],
    nextActivation := s.nextActivation + 1)
  }

  /** The `catch` of `#deliverPending`: a terminal failure is written whatever the row says, a retryable one is not. */
  function AfterFailure(rows: map<JobId, Row>, flight: Activation, permanent: bool): map<JobId, Row> {
    var id, attempts := flight.job, flight.attempts + 1;
    if id !in rows then rows
    else if permanent || attempts >= MAX_ATTEMPTS then
      rows[id := rows[id].(delivery := GivenUp, attempts := attempts)]
    else if rows[id].delivery.Undelivered? then rows[id := rows[id].(attempts := attempts)]
    else rows
  }

  function Finished(s: Worker, a: ActivationId): map<ActivationId, Activation>
    requires a in s.activations
  {
    s.activations[a := s.activations[a].(stage := Done)]
  }

  /** An event that cannot happen changes nothing. */
  function Step(s: Worker, e: Event): Worker {
    if !Enabled(s, e) then s
    else
      match e
      case Enqueue(id) => s.(rows := s.rows[id := Row(true, NoReply, 0)], used := s.used + {id})
      case Settle(id) =>
        if id in s.rows && s.rows[id].active then s.(rows := s.rows[id := Row(false, Undelivered, 0)]) else s
      case PrepareForRemoval => s.(rows := map id | id in s.rows :: Failed(s.rows[id]))
      case Prune(ids) => s.(rows := s.rows - ids)
      case Deliver(id, configured) => if id in s.deliveries then s else Started(s, id, configured)
      case Post(a) =>
        var id := s.activations[a].job;
        s.(activations := s.activations[a := s.activations[a].(stage := Posting)],
        posts := s.posts[id := Posts(s, id) + 1])
      case PostAccepted(a) =>
        var id := s.activations[a].job;
        s.(rows := SetDelivery(s.rows, id, Delivered), activations := Finished(s, a),
        succeeded := s.succeeded + {id})
      case PostFailed(a, permanent) =>
        s.(rows := AfterFailure(s.rows, s.activations[a], permanent), activations := Finished(s, a))
      case Finally(a) =>
        s.(activations := s.activations - {a}, deliveries := s.deliveries - {s.activations[a].job})
  }

  function Run(s: Worker, events: seq<Event>): Worker
    decreases |events|
  {
    if events == [] then s else Run(Step(s, events[0]), events[1..])
  }

  // ---------- The invariant ----------

  /** Everything that concerns one job. */
  datatype Story = Story(row: Option<Row>, used: bool, flight: Option<Activation>, posts: nat, succeeded: bool)

  predicate InFlight(s: Story) { s.flight.Some? && !s.flight.value.stage.Done? }

  predicate StoryOk(s: Story) {
    && s.posts <= MAX_ATTEMPTS
    && (s.row.Some? ==> s.used)
    && (!s.used ==> s.posts == 0 && !s.succeeded && !InFlight(s))
    && (s.row.Some? && s.row.value.active ==>
          s.row.value == Row(true, NoReply, 0) && s.posts == 0 && !s.succeeded && !InFlight(s))
    && (s.row.Some? && !s.row.value.active ==> !s.row.value.delivery.NoReply?)
    && (s.row.Some? && s.row.value.delivery.Undelivered? ==>
          s.row.value.attempts < MAX_ATTEMPTS && !s.succeeded &&
          (InFlight(s) ==> s.row.value.attempts == s.flight.value.attempts) &&
          (!InFlight(s) ==> s.posts <= s.row.value.attempts))
    && (InFlight(s) ==>
          !s.succeeded && s.flight.value.attempts < MAX_ATTEMPTS &&
          s.posts <= s.flight.value.attempts + if s.flight.value.stage.Posting? then 1 else 0)
  }

  function Of(s: Worker, id: JobId): Story {
    Story(
      if id in s.rows then Some(s.rows[id]) else None,
      id in s.used,
      if id in s.deliveries && s.deliveries[id] in s.activations then Some(s.activations[s.deliveries[id]]) else None,
      Posts(s, id), id in s.succeeded)
  }

  /** `#deliveries` holds exactly the running activations, under their job ids. */
  ghost predicate SingleFlight(s: Worker) {
    && (forall a :: a in s.activations ==>
          a < s.nextActivation && s.activations[a].job in s.deliveries && s.deliveries[s.activations[a].job] == a)
    && (forall id :: id in s.deliveries ==>
          s.deliveries[id] in s.activations && s.activations[s.deliveries[id]].job == id)
  }

  ghost predicate Stories(s: Worker) { forall id :: StoryOk(Of(s, id)) }

  ghost predicate Inv(s: Worker) { SingleFlight(s) && Stories(s) }

  lemma StepKeepsSingleFlight(s: Worker, e: Event)
    requires SingleFlight(s)
    ensures SingleFlight(Step(s, e))
  {
  }

  /** The job an event is about; removal and pruning touch rows only. */
  function Subject(s: Worker, e: Event): Option<JobId> {
    match e
    case Enqueue(id) => Some(id)
    case Settle(id) => Some(id)
    case Deliver(id, _) => Some(id)
    case Post(a) => if a in s.activations then Some(s.activations[a].job) else None
    case PostAccepted(a) => if a in s.activations then Some(s.activations[a].job) else None
    case PostFailed(a, _) => if a in s.activations then Some(s.activations[a].job) else None
    case Finally(a) => if a in s.activations then Some(s.activations[a].job) else None
    case _ => None
  }

  lemma OthersAreLeftAlone(s: Worker, e: Event, id: JobId)
    requires SingleFlight(s) && !e.PrepareForRemoval? && !e.Prune? && Subject(s, e) != Some(id)
    ensures Of(Step(s, e), id) == Of(s, id)
  {
  }

  lemma SubjectStaysOk(s: Worker, e: Event, id: JobId)
    requires SingleFlight(s) && Subject(s, e) == Some(id) && StoryOk(Of(s, id))
    ensures StoryOk(Of(Step(s, e), id))
  {
  }

  lemma RowsStayOk(s: Worker, e: Event, id: JobId)
    requires e.PrepareForRemoval? || e.Prune?
    requires StoryOk(Of(s, id))
    ensures StoryOk(Of(Step(s, e), id))
  {
  }

  lemma StepKeepsInv(s: Worker, e: Event)
    requires Inv(s)
    ensures Inv(Step(s, e))
  {
    StepKeepsSingleFlight(s, e);
    forall id: JobId ensures StoryOk(Of(Step(s, e), id)) {
      if e.PrepareForRemoval? || e.Prune? {
        RowsStayOk(s, e, id);
      } else if Subject(s, e) == Some(id) {
        SubjectStaysOk(s, e, id);
      } else {
        OthersAreLeftAlone(s, e, id);
      }
    }
  }

  lemma {:induction false} RunKeepsInv(s: Worker, events: seq<Event>)
    requires Inv(s)
    ensures Inv(Run(s, events))
    decreases |events|
  {
    if events != [] {
      StepKeepsInv(s, events[0]);
      RunKeepsInv(Step(s, events[0]), events[1..]);
    }
  }

  // ---------- What holds in every run ----------

  /** No two deliveries of one job run at once, so at most one post of it is in flight. */
  lemma OneFlightPerJob(events: seq<Event>, a: ActivationId, b: ActivationId)
    ensures var s := Run(INITIAL, events);
            a in s.activations && b in s.activations && s.activations[a].job == s.activations[b].job ==> a == b
  {
    RunKeepsInv(INITIAL, events);
  }

  /** Calls of Slack that a run makes for one job */
  function PostsMade(s: Worker, events: seq<Event>, id: JobId): nat
    decreases |events|
  {
    if events == [] then 0
    else
      var e := events[0];
      (if e.Post? && Enabled(s, e) && s.activations[e.a].job == id then 1 else 0)
      + PostsMade(Step(s, e), events[1..], id)
  }

  lemma {:induction false} PostsAreCounted(s: Worker, events: seq<Event>, id: JobId)
    ensures Posts(Run(s, events), id) == Posts(s, id) + PostsMade(s, events, id)
    decreases |events|
  {
    if events != [] {
      PostsAreCounted(Step(s, events[0]), events[1..], id);
    }
  }

  /** At most five posts of a job in any run. */
  lemma FivePostsAtMost(events: seq<Event>, id: JobId)
    ensures PostsMade(INITIAL, events, id) <= MAX_ATTEMPTS
  {
    RunKeepsInv(INITIAL, events);
    PostsAreCounted(INITIAL, events, id);
    assert StoryOk(Of(Run(INITIAL, events), id));
  }

  /** Once Slack has accepted a post of a job, no further one is ever made, and the reply is owed no more. */
  lemma {:induction false} NoPostAfterSuccess(s: Worker, events: seq<Event>, id: JobId)
    requires Inv(s) && id in s.succeeded
    ensures PostsMade(s, events, id) == 0 && !Owed(Run(s, events).rows, id)
    decreases |events|
  {
    assert StoryOk(Of(s, id));
    if events != [] {
      StepKeepsInv(s, events[0]);
      NoPostAfterSuccess(Step(s, events[0]), events[1..], id);
    }
  }

  // ---------- When a recorded failure is final ----------

  predicate IsGivenUp(s: Worker, id: JobId) { id in s.rows && s.rows[id].delivery.GivenUp? }

  predicate IsDelivered(s: Worker, id: JobId) { id in s.rows && s.rows[id].delivery.Delivered? }

  /** A delivery of the job that has yet to post, or to hear from Slack. */
  ghost predicate Unfinished(s: Worker, id: JobId) {
    exists a :: a in s.activations && s.activations[a].job == id && !s.activations[a].stage.Done?
  }

  ghost predicate CanBeDelivered(s: Worker, id: JobId) { exists events :: IsDelivered(Run(s, events), id) }

  /** An accepted post is the only event after which a given-up row is there and says something else. */
  lemma OnlyAcceptanceRevives(s: Worker, e: Event, id: JobId)
    requires Inv(s) && IsGivenUp(s, id) && id in Step(s, e).rows && !IsGivenUp(Step(s, e), id)
    ensures e.PostAccepted? && Enabled(s, e) && s.activations[e.a].job == id && IsDelivered(Step(s, e), id)
  {
    assert StoryOk(Of(s, id));
  }

  /** A row that was given up and whose deliveries are finished stays given up until it is pruned. */
  lemma {:induction false} FinishedFailureIsFinal(s: Worker, events: seq<Event>, id: JobId)
    requires Inv(s) && id in s.used && (id in s.rows ==> IsGivenUp(s, id)) && !Unfinished(s, id)
    ensures id in Run(s, events).rows ==> IsGivenUp(Run(s, events), id)
    decreases |events|
  {
    assert StoryOk(Of(s, id));
    if events != [] {
      var next := Step(s, events[0]);
      StepKeepsInv(s, events[0]);
      assert !Unfinished(next, id) by {
        StaysFinished(s, events[0], id);
      }
      FinishedFailureIsFinal(next, events[1..], id);
    }
  }

  lemma StaysFinished(s: Worker, e: Event, id: JobId)
    requires Inv(s) && (id in s.rows ==> IsGivenUp(s, id)) && !Unfinished(s, id)
    ensures !Unfinished(Step(s, e), id)
  {
    var next := Step(s, e);
    forall a | a in next.activations && next.activations[a].job == id
      ensures next.activations[a].stage.Done?
    {
      assert a in s.activations && s.activations[a].job == id ==> s.activations[a].stage.Done?;
    }
  }

  lemma RunAppend(s: Worker, events: seq<Event>, e: Event)
    ensures Run(s, events + [e]) == Step(Run(s, events), e)
    decreases |events|
  {
    if events == [] {
      assert Run(s, [e]) == Run(Step(s, e), []);
      assert events + [e] == [e];
    } else {
      assert (events + [e])[1..] == events[1..] + [e];
      RunAppend(Step(s, events[0]), events[1..], e);
    }
  }

  /** What is left of a delivery that goes well */
  function Acceptance(s: Worker, a: ActivationId): seq<Event>
    requires a in s.activations
  {
    if s.activations[a].stage.Posting? then [PostAccepted(a)] else [Post(a), PostAccepted(a)]
  }

  lemma AcceptedAt(s: Worker, a: ActivationId)
    requires a in s.activations && !s.activations[a].stage.Done? && s.activations[a].job in s.rows
    ensures IsDelivered(Run(s, Acceptance(s, a)), s.activations[a].job)
  {
    if s.activations[a].stage.Posting? {
      RunAppend(s, [], PostAccepted(a));
      assert Acceptance(s, a) == [] + [PostAccepted(a)];
    } else {
      RunAppend(s, [], Post(a));
      RunAppend(s, [] + [Post(a)], PostAccepted(a));
      assert Acceptance(s, a) == [] + [Post(a)] + [PostAccepted(a)];
    }
  }

  /** A given-up row can still become delivered exactly while a delivery of its job is unfinished. */
  lemma RevivableIff(s: Worker, id: JobId)
    requires Inv(s) && IsGivenUp(s, id)
    ensures CanBeDelivered(s, id) <==> Unfinished(s, id)
  {
    assert StoryOk(Of(s, id));
    if Unfinished(s, id) {
      var a :| a in s.activations && s.activations[a].job == id && !s.activations[a].stage.Done?;
      AcceptedAt(s, a);
    } else {
      forall events ensures !IsDelivered(Run(s, events), id) {
        FinishedFailureIsFinal(s, events, id);
      }
    }
  }

  /**
   After any run, a removal leaves every job given up or delivered; what it leaves given up can become delivered
   later exactly if a delivery of that job was unfinished at that moment, decrypting or posting.
   */
  lemma RemovalHoldsIff(events: seq<Event>, id: JobId)
    ensures var s := Run(INITIAL, events);
            var removed := Step(s, PrepareForRemoval);
            id in s.rows ==>
              && (IsGivenUp(removed, id) || IsDelivered(removed, id))
              && (IsGivenUp(removed, id) ==>
                    (CanBeDelivered(removed, id) <==> Unfinished(s, id)))
  {
    RunKeepsInv(INITIAL, events);
    var s := Run(INITIAL, events);
    assert StoryOk(Of(s, id));
    var removed := Step(s, PrepareForRemoval);
    StepKeepsInv(s, PrepareForRemoval);
    if IsGivenUp(removed, id) {
      RevivableIff(removed, id);
      assert removed.activations == s.activations;
    }
  }

  const REPLYING := [Enqueue(0), Settle(0), Deliver(0, true)]

  lemma Replying()
    ensures Run(INITIAL, REPLYING) ==
            Worker(map[0 := Row(false, Undelivered, 0)], map[0 := Activation(0, 0, Decrypting)], map[0 := 0], 1, {0},
                   map[], {})
  {
    var queued := Worker(map[0 := Row(true, NoReply, 0)], map[], map[], 0, {0}, map[], {});
    var owed := queued.(rows := map[0 := Row(false, Undelivered, 0)]);
    RunAppend(INITIAL, [], Enqueue(0));
    assert Step(INITIAL, Enqueue(0)) == queued;
    RunAppend(INITIAL, [] + [Enqueue(0)], Settle(0));
    assert Step(queued, Settle(0)) == owed;
    RunAppend(INITIAL, [] + [Enqueue(0)] + [Settle(0)], Deliver(0, true));
    assert REPLYING == [] + [Enqueue(0)] + [Settle(0)] + [Deliver(0, true)];
  }

  /** Both ways in which that happens: the removal comes while the reply is decrypted, or while it is posted. */
  lemma RemovalOvertaken()
    ensures var decrypting := Run(INITIAL, REPLYING + [PrepareForRemoval]);
            IsGivenUp(decrypting, 0) && IsDelivered(Run(decrypting, [Post(0), PostAccepted(0)]), 0)
    ensures var posting := Run(INITIAL, REPLYING + [Post(0)] + [PrepareForRemoval]);
            IsGivenUp(posting, 0) && IsDelivered(Run(posting, [PostAccepted(0)]), 0)
  {
    Replying();
    RunAppend(INITIAL, REPLYING, PrepareForRemoval);
    RunAppend(INITIAL, REPLYING, Post(0));
    RunAppend(INITIAL, REPLYING + [Post(0)], PrepareForRemoval);
    AcceptedAt(Run(INITIAL, REPLYING + [PrepareForRemoval]), 0);
    AcceptedAt(Run(INITIAL, REPLYING + [Post(0)] + [PrepareForRemoval]), 0);
  }
}
