/**
 Reply delivery of the Durable Object coordinator as an object whose methods update its fields
 (worker/claw-coordinator.ts:193-225, 330-351, 479-572).  Each method is one synchronous stretch and performs the
 event of `DeliveryRuns` with the same name, so every state the object reaches is a state of a run.
 */
module WorkerDelivery {
  import opened Common
  import opened DeliveryRuns

  class CrabhelmClawCoordinator {
    var rows: map<JobId, Row>
    var activations: map<ActivationId, Activation>
    var deliveries: map<JobId, ActivationId>
    var nextActivation: ActivationId
    // History
    ghost var used: set<JobId>
    ghost var posts: map<JobId, nat>
    ghost var succeeded: set<JobId>

    ghost function State(): Worker
      reads this
    {
      Worker(rows, activations, deliveries, nextActivation, used, posts, succeeded)
    }

    ghost predicate Valid()
      reads this
    {
      Inv(State())
    }

    constructor ()
      ensures Valid() && State() == INITIAL
    {
      rows, activations, deliveries, nextActivation := map[], map[], map[], 0;
      used, posts, succeeded := {}, map[], {};
    }

    /** `enqueueTurn` of a new event, with a fresh job id */
    method Enqueue(id: JobId)
      requires Valid() && id !in used
      modifies this
      ensures Valid() && State() == Step(old(State()), Event.Enqueue(id))
    {
      StepKeepsInv(State(), Event.Enqueue(id));
      rows := rows[id := Row(true, NoReply, 0)];
      used := used + {id};
    }

    /** Completion, failure, cancellation and expiry: an active job gets its answer, a settled one is left alone. */
    method Settle(id: JobId)
      requires Valid()
      modifies this
      ensures Valid() && State() == Step(old(State()), Event.Settle(id))
    {
      StepKeepsInv(State(), Event.Settle(id));
      if id in rows && rows[id].active {
        rows := rows[id := Row(false, Undelivered, 0)];
      }
    }

    /** `prepareForRemoval`: active jobs and undelivered replies fail, whatever is in flight. */
    method PrepareForRemoval()
      requires Valid()
      modifies this
      ensures Valid() && State() == Step(old(State()), Event.PrepareForRemoval)
      ensures forall id :: id in rows ==> IsGivenUp(State(), id) || IsDelivered(State(), id)
    {
      StepKeepsInv(State(), Event.PrepareForRemoval);
      forall id | id in rows ensures StoryOk(Of(State(), id)) {
      }
      rows := map id | id in rows :: Failed(rows[id]);
    }

    /** The alarm prunes rows whose delivery has ended. */
    method Prune(ids: set<JobId>)
      requires Valid() && forall id :: id in ids && id in rows ==> rows[id].delivery in {Delivered, GivenUp}
      modifies this
      ensures Valid() && State() == Step(old(State()), Event.Prune(ids))
    {
      StepKeepsInv(State(), Event.Prune(ids));
      rows := rows - ids;
    }

    /**
     `#deliver` and the synchronous start of `#deliverPending`, however stale the caller's snapshot: join the running
     delivery, or read the row again and start one if the reply is still undelivered.
     */
    method Deliver(id: JobId, configured: bool)
      requires Valid()
      modifies this
      ensures Valid() && State() == Step(old(State()), Event.Deliver(id, configured))
      ensures id in deliveries
    {
      StepKeepsInv(State(), Event.Deliver(id, configured));
      if id in deliveries {
        return;
      }
      var attempts := if id in rows then rows[id].attempts else 0;
      var stage := Done;
      if id in rows && rows[id].delivery.Undelivered? {
        if configured {
          stage := Decrypting;
        } else {
          rows := rows[id := rows[id].(delivery := GivenUp)];
        }
      }
      activations := activations[nextActivation := Activation(id, attempts, stage)];
      deliveries := deliveries[id := nextActivation];
      nextActivation := nextActivation + 1;
    }

    /** The decrypted reply is posted to Slack. */
    method Post(a: ActivationId)
      requires Valid() && a in activations && activations[a].stage.Decrypting?
      modifies this
      ensures Valid() && State() == Step(old(State()), Event.Post(a))
    {
      StepKeepsInv(State(), Event.Post(a));
      posts := posts[activations[a].job := Posts(State(), activations[a].job) + 1];
      activations := activations[a := activations[a].(stage := Posting)];
    }

    /** Slack accepted the post: the row becomes `delivered` whatever it says by now. */
    method PostAccepted(a: ActivationId)
      requires Valid() && a in activations && activations[a].stage.Posting?
      modifies this
      ensures Valid() && State() == Step(old(State()), Event.PostAccepted(a))
    {
      StepKeepsInv(State(), Event.PostAccepted(a));
      var id := activations[a].job;
      if id in rows {
        rows := rows[id := rows[id].(delivery := Delivered)];
      }
      succeeded := succeeded + {id};
      activations := activations[a := activations[a].(stage := Done)];
    }

    /** Decryption or the post failed: count the attempt; a terminal failure gives the reply up. */
    method PostFailed(a: ActivationId, permanent: bool)
      requires Valid() && a in activations && !activations[a].stage.Done?
      modifies this
      ensures Valid() && State() == Step(old(State()), Event.PostFailed(a, permanent))
    {
      StepKeepsInv(State(), Event.PostFailed(a, permanent));
      var id, attempts := activations[a].job, activations[a].attempts + 1;
      if id in rows {
        if permanent || attempts >= MAX_ATTEMPTS {
          rows := rows[id := rows[id].(delivery := GivenUp, attempts := attempts)];
        } else if rows[id].delivery.Undelivered? {
          rows := rows[id := rows[id].(attempts := attempts)];
        }
      }
      activations := activations[a := activations[a].(stage := Done)];
    }

    /** The `finally` of `#deliver` */
    method Finally(a: ActivationId)
      requires Valid() && a in activations && activations[a].stage.Done?
      modifies this
      ensures Valid() && State() == Step(old(State()), Event.Finally(a))
    {
      StepKeepsInv(State(), Event.Finally(a));
      deliveries := deliveries - {activations[a].job};
      activations := activations - {a};
    }
  }
}
