/**
 Runtime refresh rotation (`#refreshRuntime`, aws/postgres-coordinator.ts:809-890) under concurrent requests.
 A request reads the presented refresh row, mints a successor token, and records it in one transaction; a request
 that loses the race reads again and replays the recorded token.  Signing idealises to fresh, increasing token ids.
 */
module RefreshRotation {
  import opened Common
  import opened CoordinatorTables

  type RequestId = nat

  datatype Request =
    | Reading(jti: TokenId, attempt: nat)
    | Minted(jti: TokenId, next: TokenId, readAt: Time, attempt: nat)
    | Answering(jti: TokenId, next: TokenId)
    | Closed

  /** `answers` and `sent` are history: every response ever recorded, every token ever sent. */
  datatype Rotation = Rotation(
    db: Database,
    requests: map<RequestId, Request>,
    nextToken: TokenId,
    answers: map<TokenId, TokenId>,
    sent: set<(TokenId, TokenId)>)

  datatype Event =
    | Sql(s: Statement)
    | Register(expiresAt: Time)
    | Present(request: RequestId, jti: TokenId)
    | Read(request: RequestId, now: Time)
    | Commit(request: RequestId, nextExpiresAt: Time)
    | Send(request: RequestId)

  const MAX_RETRIES: nat := 3

  function Apply(r: Rotation, e: Event): Rotation {
    match e
    case Sql(s) => if s.RegisterRefresh? || s.Rotate? then r else r.(db := Exec(r.db, s))
    case Register(expiresAt) =>
      r.(db := Exec(r.db, RegisterRefresh(r.nextToken, expiresAt)), nextToken := r.nextToken + 1)
    case Present(request, jti) =>
      if request in r.requests || jti >= r.nextToken then r
      else r.(requests := r.requests[request := Reading(jti, 0)])
    case Read(request, now) =>
      if request !in r.requests || !r.requests[request].Reading? then r
      else
        var q := r.requests[request];
        if Removed(r.db) || q.jti !in r.db.refreshes || r.db.refreshes[q.jti].expiresAt <= now
        then r.(requests := r.requests[request := Closed])
        else if r.db.refreshes[q.jti].response.Some?
        then r.(requests := r.requests[request := Answering(q.jti, r.db.refreshes[q.jti].response.value)])
        else r.(requests := r.requests[request := Minted(q.jti, r.nextToken, now, q.attempt)],
                nextToken := r.nextToken + 1)
    case Commit(request, nextExpiresAt) =>
      if request !in r.requests || !r.requests[request].Minted? then r
      else
        var q := r.requests[request];
        var s := Rotate(q.jti, q.next, nextExpiresAt, q.readAt);
        if Removed(r.db) then r.(requests := r.requests[request := Closed])
        else if Took(r.db, s)
        then r.(db := Exec(r.db, s), answers := r.answers[q.jti := q.next],
                requests := r.requests[request := Answering(q.jti, q.next)])
        else if q.attempt >= MAX_RETRIES then r.(requests := r.requests[request := Closed])
        else r.(requests := r.requests[request := Reading(q.jti, q.attempt + 1)])
    case Send(request) =>
      if request !in r.requests || !r.requests[request].Answering? then r
      else
        var q := r.requests[request];
        r.(sent := r.sent + {(q.jti, q.next)}, requests := r.requests[request := Closed])
  }

  function Run(r: Rotation, events: seq<Event>): Rotation {
    if events == [] then r else Apply(Run(r, events[..|events| - 1]), events[|events| - 1])
  }

  const INITIAL := Rotation(EMPTY, map[], 0, map[], {})

  // ---------- Invariant ----------

  ghost predicate RowAgrees(r: Rotation, jti: TokenId, row: Refresh) {
    && jti < r.nextToken
    && (row.response.Some? ==> jti in r.answers && r.answers[jti] == row.response.value)
    && (row.response.None? ==> jti !in r.answers)
  }

  ghost predicate RowsAgree(r: Rotation) {
    forall jti :: jti in r.db.refreshes ==> RowAgrees(r, jti, r.db.refreshes[jti])
  }

  /** Answers lead to later tokens, and no two lead to the same one. */
  ghost predicate Chains(answers: map<TokenId, TokenId>, bound: TokenId) {
    && (forall j :: j in answers ==> j < answers[j] < bound)
    && (forall j, k :: j in answers && k in answers && answers[j] == answers[k] ==> j == k)
  }

  ghost predicate Unrecorded(r: Rotation, next: TokenId) {
    && next < r.nextToken && next !in r.db.refreshes && next !in r.answers
    && (forall j :: j in r.answers ==> r.answers[j] != next)
  }

  ghost predicate RequestOk(r: Rotation, q: Request) {
    match q
    case Reading(jti, _) => jti < r.nextToken
    case Minted(jti, next, _, _) => jti < next && Unrecorded(r, next)
    case Answering(jti, next) => jti in r.answers && r.answers[jti] == next
    case Closed => true
  }

  ghost predicate RequestsOk(r: Rotation) {
    && (forall q :: q in r.requests ==> RequestOk(r, r.requests[q]))
    && (forall p, q :: p in r.requests && q in r.requests && p != q && r.requests[p].Minted? && r.requests[q].Minted?
                       ==> r.requests[p].next != r.requests[q].next)
  }

  ghost predicate SentOk(r: Rotation) {
    forall pair :: pair in r.sent ==> pair.0 in r.answers && r.answers[pair.0] == pair.1
  }

  ghost predicate Inv(r: Rotation) {
    RowsAgree(r) && Chains(r.answers, r.nextToken) && RequestsOk(r) && SentOk(r)
  }

  /** New rows are fresh and unanswered, and nothing else about answers changes. */
  ghost predicate Quiet(r: Rotation, after: Rotation) {
    && after.answers == r.answers && r.nextToken <= after.nextToken
    && forall j :: j in after.db.refreshes ==>
                     || (j in r.db.refreshes && after.db.refreshes[j] == r.db.refreshes[j])
                     || (r.nextToken <= j < after.nextToken && after.db.refreshes[j].response.None?)
  }

  lemma QuietStep(r: Rotation, after: Rotation)
    requires Inv(r) && Quiet(r, after)
    ensures RowsAgree(after) && Chains(after.answers, after.nextToken)
    ensures forall q {:trigger RequestOk(after, q)} :: RequestOk(r, q) ==> RequestOk(after, q)
  {
  }

  lemma CommitStep(r: Rotation, request: RequestId, nextExpiresAt: Time)
    requires Inv(r) && request in r.requests && r.requests[request].Minted?
    requires var q := r.requests[request]; Took(r.db, Rotate(q.jti, q.next, nextExpiresAt, q.readAt))
    ensures Inv(Apply(r, Commit(request, nextExpiresAt)))
  {
    var q := r.requests[request];
    var after := Apply(r, Commit(request, nextExpiresAt));
    assert RequestOk(r, q);
    assert RowAgrees(r, q.jti, r.db.refreshes[q.jti]);
    forall p | p in after.requests ensures RequestOk(after, after.requests[p]) {
      if p != request {
        assert RequestOk(r, r.requests[p]);
      }
    }
  }

  /** The requests other than one are untouched. */
  ghost predicate Touches(r: Rotation, after: Rotation, request: RequestId) {
    && (forall p :: p in after.requests && p != request ==> p in r.requests && after.requests[p] == r.requests[p])
    && (request in after.requests && after.requests[request].Minted? ==>
          after.requests[request].next == r.nextToken < after.nextToken)
  }

  lemma OneRequestStep(r: Rotation, after: Rotation, request: RequestId)
    requires Inv(r) && Quiet(r, after) && Touches(r, after, request) && after.sent == r.sent
    requires request in after.requests ==> RequestOk(after, after.requests[request])
    ensures Inv(after)
  {
    QuietStep(r, after);
    forall q | q in after.requests && q != request ensures RequestOk(after, after.requests[q]) {
      assert RequestOk(r, r.requests[q]);
    }
    forall p, q | p in after.requests && q in after.requests && p != q && after.requests[p].Minted?
                  && after.requests[q].Minted?
      ensures after.requests[p].next != after.requests[q].next
    {
      assert p != request ==> RequestOk(r, r.requests[p]);
      assert q != request ==> RequestOk(r, r.requests[q]);
    }
  }

  lemma SqlStep(r: Rotation, s: Statement)
    requires Inv(r)
    ensures Inv(Apply(r, Sql(s)))
  {
    var after := Apply(r, Sql(s));
    QuietStep(r, after);
    forall q | q in after.requests ensures RequestOk(after, after.requests[q]) {
      assert RequestOk(r, r.requests[q]);
    }
  }

  lemma RegisterStep(r: Rotation, expiresAt: Time)
    requires Inv(r)
    ensures Inv(Apply(r, Register(expiresAt)))
  {
    var after := Apply(r, Register(expiresAt));
    QuietStep(r, after);
    forall q | q in after.requests ensures RequestOk(after, after.requests[q]) {
      assert RequestOk(r, r.requests[q]);
    }
  }

  lemma ReadStep(r: Rotation, request: RequestId, now: Time)
    requires Inv(r)
    ensures Inv(Apply(r, Read(request, now)))
  {
    var after := Apply(r, Read(request, now));
    if request in r.requests && r.requests[request].Reading? {
      var jti := r.requests[request].jti;
      assert RequestOk(r, r.requests[request]);
      assert jti in r.db.refreshes ==> RowAgrees(r, jti, r.db.refreshes[jti]);
      OneRequestStep(r, after, request);
    }
  }

  lemma SendStep(r: Rotation, request: RequestId)
    requires Inv(r)
    ensures Inv(Apply(r, Send(request)))
  {
    var after := Apply(r, Send(request));
    if request in r.requests && r.requests[request].Answering? {
      assert RequestOk(r, r.requests[request]);
      OneRequestStep(r, after.(sent := r.sent), request);
      forall q | q in after.requests ensures RequestOk(after, after.requests[q]) {
        assert RequestOk(after.(sent := r.sent), after.requests[q]);
      }
    }
  }

  lemma RetryStep(r: Rotation, request: RequestId, nextExpiresAt: Time)
    requires Inv(r) && request in r.requests && r.requests[request].Minted?
    requires var q := r.requests[request];
             Removed(r.db) || !Took(r.db, Rotate(q.jti, q.next, nextExpiresAt, q.readAt))
    ensures Inv(Apply(r, Commit(request, nextExpiresAt)))
  {
    assert RequestOk(r, r.requests[request]);
    OneRequestStep(r, Apply(r, Commit(request, nextExpiresAt)), request);
  }

  lemma ApplyKeepsInv(r: Rotation, e: Event)
    requires Inv(r)
    ensures Inv(Apply(r, e))
  {
    match e {
      case Sql(s) => SqlStep(r, s);
      case Register(expiresAt) => RegisterStep(r, expiresAt);
      case Present(request, jti) =>
        if request !in r.requests {
          OneRequestStep(r, Apply(r, e), request);
        }
      case Read(request, now) => ReadStep(r, request, now);
      case Commit(request, nextExpiresAt) =>
        if request in r.requests && r.requests[request].Minted? {
          var q := r.requests[request];
          if Removed(r.db) || !Took(r.db, Rotate(q.jti, q.next, nextExpiresAt, q.readAt)) {
            RetryStep(r, request, nextExpiresAt);
          } else {
            CommitStep(r, request, nextExpiresAt);
          }
        }
      case Send(request) => SendStep(r, request);
    }
  }

  /** A recorded answer is never replaced, not even once its row has been pruned or removed. */
  lemma ApplyKeepsAnswers(r: Rotation, e: Event, jti: TokenId)
    requires Inv(r) && jti in r.answers
    ensures jti in Apply(r, e).answers && Apply(r, e).answers[jti] == r.answers[jti]
  {
    if e.Commit? && e.request in r.requests && r.requests[e.request].Minted? && r.requests[e.request].jti == jti {
      assert jti in r.db.refreshes ==> RowAgrees(r, jti, r.db.refreshes[jti]);
    }
  }

  lemma {:induction false} RunKeepsInv(r: Rotation, events: seq<Event>)
    requires Inv(r)
    ensures Inv(Run(r, events))
    ensures forall jti :: jti in r.answers ==>
              jti in Run(r, events).answers && Run(r, events).answers[jti] == r.answers[jti]
  {
    if events != [] {
      var before := Run(r, events[..|events| - 1]);
      RunKeepsInv(r, events[..|events| - 1]);
      ApplyKeepsInv(before, events[|events| - 1]);
      forall jti | jti in r.answers
        ensures jti in Run(r, events).answers && Run(r, events).answers[jti] == r.answers[jti]
      {
        ApplyKeepsAnswers(before, events[|events| - 1], jti);
      }
    }
  }

  // ---------- Results ----------

  /** Rotation is a partial function with replay: whoever presents an id, whenever, is sent the same token. */
  lemma SameTokenForEveryPresenter(events: seq<Event>, jti: TokenId, one: TokenId, other: TokenId)
    requires (jti, one) in Run(INITIAL, events).sent && (jti, other) in Run(INITIAL, events).sent
    ensures one == other
    ensures jti < one
  {
    RunKeepsInv(INITIAL, events);
    assert (jti, one).0 == jti;
  }

  /** The token sent after a run was sent, or will be, is the one recorded when the id was first answered. */
  lemma ReplayAcrossTime(events: seq<Event>, later: seq<Event>, jti: TokenId, one: TokenId, other: TokenId)
    requires (jti, one) in Run(INITIAL, events).sent
    requires (jti, other) in Run(Run(INITIAL, events), later).sent
    ensures one == other
  {
    RunKeepsInv(INITIAL, events);
    RunKeepsInv(Run(INITIAL, events), later);
    assert (jti, one).0 == jti && (jti, other).0 == jti;
  }

  /** Recording an answer and registering its successor are one step: no state shows one without the other. */
  lemma AnswerAndSuccessorTogether(r: Rotation, e: Event, jti: TokenId)
    requires Inv(r) && jti !in r.answers && jti in Apply(r, e).answers
    ensures var after := Apply(r, e); var next := after.answers[jti];
            && next !in r.db.refreshes && next in after.db.refreshes
            && after.db.refreshes[next].response.None?
            && jti in r.db.refreshes && r.db.refreshes[jti].response.None?
            && jti in after.db.refreshes && after.db.refreshes[jti].response == Some(next)
  {
  }

  /** The ids reached from one by following k recorded answers. */
  ghost predicate Path(answers: map<TokenId, TokenId>, path: seq<TokenId>) {
    forall i :: 0 <= i < |path| - 1 ==> path[i] in answers && answers[path[i]] == path[i + 1]
  }

  /** The rotation chain is acyclic. */
  lemma {:induction false} ChainsNeverReturn(events: seq<Event>, path: seq<TokenId>)
    requires |path| >= 2 && Path(Run(INITIAL, events).answers, path)
    ensures path[0] < path[|path| - 1]
  {
    RunKeepsInv(INITIAL, events);
    if |path| > 2 {
      var front := path[..|path| - 1];
      ChainsNeverReturn(events, front);
      assert path[|path| - 2] in Run(INITIAL, events).answers;
    } else {
      assert path[0] in Run(INITIAL, events).answers && Run(INITIAL, events).answers[path[0]] == path[0 + 1];
    }
  }

  /** The rotation chain never branches or merges: a token succeeds at most one id. */
  lemma ChainsNeverMerge(events: seq<Event>, one: TokenId, other: TokenId)
    requires one in Run(INITIAL, events).answers && other in Run(INITIAL, events).answers
    requires Run(INITIAL, events).answers[one] == Run(INITIAL, events).answers[other]
    ensures one == other
  {
    RunKeepsInv(INITIAL, events);
  }
}
