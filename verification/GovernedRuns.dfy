/**
 Every run of the governed-invocation protocol (worker/governance-controller.ts:143-247): confirmations, grants and
 executions of any number of concurrent requests, with the coordinator tables of every claw.  Ids and tokens are drawn
 from one counter, so they are fresh; a signed token cannot be forged.  A request may stop after any step.
 */
module GovernedRuns {
  import opened Common
  import opened Governance
  import Tables = CoordinatorTables

  type ClawId = nat
  type TokenId = nat
  type ExecutionId = nat

  /** What a signed grant says; the coordinator ties its token to one invocation. */
  datatype Claims = Claims(
    claw: ClawId, action: Action, confirmation: Option<ConfirmationId>, token: TokenId, expiresAt: Time)

  datatype Grant = Grant(claims: Claims, invocation: InvocationId)

  datatype IssueStage = Signed | Saved
  datatype Issue = Issue(grant: Grant, stage: IssueStage)

  /** `#executeGithub`, step by step */
  datatype ExecutionStage = Consumed | Started | Marked | Called(ok: bool) | Recorded(ok: bool) | Over
  datatype Execution = Execution(grant: Grant, arguments: Digest, stage: ExecutionStage)

  /** A decision to approve, as it was made. */
  datatype Approval = Approval(action: Action, decider: PrincipalId, at: Time, expiresAt: Time)

  /** A request to the provider. */
  datatype Call = Call(grant: Grant, arguments: Digest, execution: ExecutionId)

  datatype System = System(
    next: nat,
    confirmations: map<ConfirmationId, Confirmation>,
    issues: map<InvocationId, Issue>,
    tokens: set<Claims>,
    claws: map<ClawId, Tables.Database>,
    invocations: map<InvocationId, InvocationStatus>,
    executions: map<ExecutionId, Execution>,
    // History
    approvals: map<ConfirmationId, Approval>,
    used: map<ConfirmationId, TokenId>,
    minted: map<TokenId, Grant>,
    consumed: map<TokenId, ExecutionId>,
    calls: seq<Call>)

  datatype Event =
    | Confirm(action: Action, now: Time)
    | DecideOn(id: ConfirmationId, decider: PrincipalId, approve: bool, now: Time, transactional: bool)
    | Issuing(claw: ClawId, action: Action, confirmation: Option<ConfirmationId>, now: Time)
    | Save(invocation: InvocationId)
    | Register(invocation: InvocationId)
    | Consume(claims: Claims, invocation: InvocationId, arguments: Digest, now: Time)
    | StartRun(execution: ExecutionId, now: Time)
    | MarkRunning(execution: ExecutionId)
    | CallProvider(execution: ExecutionId, ok: bool)
    | FinishRun(execution: ExecutionId, now: Time)
    | RecordOutcome(execution: ExecutionId)
    | EvictConfirmation(id: ConfirmationId)
    | EvictInvocation(id: InvocationId)
    | Elsewhere(claw: ClawId, statement: Tables.Statement)

  const INITIAL := System(0, map[], map[], {}, map[], map[], map[], map[], map[], map[], map[], [])

  function Rows(s: System, claw: ClawId): Tables.Database { if claw in s.claws then s.claws[claw] else Tables.EMPTY }

  function Execute(s: System, claw: ClawId, statement: Tables.Statement): System {
    s.(claws := s.claws[claw := Tables.Exec(Rows(s, claw), statement)])
  }

  function SetStage(s: System, x: ExecutionId, stage: ExecutionStage): System
    requires x in s.executions
  {
    s.(executions := s.executions[x := s.executions[x].(stage := stage)])
  }

  /** The confirmation, if the capability needs one, is used up before the grant is signed. */
  function MayIssue(s: System, action: Action, confirmation: Option<ConfirmationId>, now: Time): bool {
    NeedsConfirmation(action.capability) ==>
      confirmation.Some? && confirmation.value in s.confirmations &&
      Use(s.confirmations[confirmation.value], action, now).Success?
  }

  function IssueStep(
    s: System, claw: ClawId, action: Action, confirmation: Option<ConfirmationId>, now: Time): (r: System)
    ensures r.invocations == s.invocations
    ensures (r.next == s.next && r.issues == s.issues) ||
            (r.next == s.next + 2 && s.next + 1 in r.issues && r.issues[s.next + 1].stage.Signed? &&
             r.issues == s.issues[s.next + 1 := r.issues[s.next + 1]])
  {
    if !MayIssue(s, action, confirmation, now) then s
    else
      var grant := Grant(Claims(claw, action, confirmation, s.next, now + GRANT_TTL), s.next + 1);
      var minted := s.(next := s.next + 2, minted := s.minted[s.next := grant],
      issues := s.issues[s.next + 1 := Issue(grant, Signed)]);
      if NeedsConfirmation(action.capability)
      then
        minted.(confirmations := s.confirmations[confirmation.value :=
                                                 Use(s.confirmations[confirmation.value], action, now).value],
        used := s.used[confirmation.value := s.next])
      else minted
  }

  function RegisterStatement(g: Grant): Tables.Statement {
    Tables.RegisterGrant(g.invocation, g.claims.token, g.claims.action.digest, g.claims.expiresAt)
  }

  function RegisterStep(s: System, invocation: InvocationId): (r: System)
    ensures r.next == s.next && r.invocations == s.invocations
    ensures forall i :: i in r.issues ==> i in s.issues && r.issues[i] == s.issues[i]
  {
    if invocation in s.issues && s.issues[invocation].stage.Saved?
    then
      var g := s.issues[invocation].grant;
      Execute(s, g.claims.claw, RegisterStatement(g)).(
      issues := s.issues - {invocation}, tokens := s.tokens + {g.claims})
    else s
  }

  function ConsumeStep(s: System, claims: Claims, invocation: InvocationId, arguments: Digest, now: Time): (r: System)
    ensures r.next >= s.next && r.invocations == s.invocations && r.issues == s.issues
  {
    if claims in s.tokens && claims.expiresAt > now && arguments == claims.action.digest &&
       Tables.GrantMatches(Rows(s, claims.claw), invocation, claims.token, arguments, now)
    then
      Execute(s, claims.claw, Tables.ConsumeGrant(invocation, claims.token, arguments, now)).(
      next := s.next + 1,
      executions := s.executions[s.next := Execution(Grant(claims, invocation), arguments, Consumed)],
      consumed := s.consumed[claims.token := s.next])
    else s
  }

  function DecideStep(
    s: System, id: ConfirmationId, decider: PrincipalId, approve: bool, now: Time, transactional: bool): (r: System)
    ensures r.next == s.next && r.issues == s.issues && r.invocations == s.invocations
  {
    if id !in s.confirmations then s
    else
      var current := s.confirmations[id];
      var r := Decide(current, decider, approve, now);
      if r.Success?
      then
        s.(confirmations := s.confirmations[id := r.value],
        approvals := if approve then s.approvals[id := Approval(current.action, decider, now, current.expiresAt)]
                     else s.approvals)
      else if r.error.TooLate? && !transactional
      then s.(confirmations := s.confirmations[id := current.(status := Expired)])
      else s
  }

  function UpdateInvocation(s: System, invocation: InvocationId, status: InvocationStatus): Result<System, Refusal> {
    if invocation !in s.invocations then Failure(NotFound)
    else
      var r := Advance(s.invocations[invocation], status);
      if r.Failure? then Failure(r.error) else Success(s.(invocations := s.invocations[invocation := r.value]))
  }

  function ExecutionStep(s: System, e: Event): System
    requires e.StartRun? || e.MarkRunning? || e.CallProvider? || e.FinishRun? || e.RecordOutcome?
  {
    if e.execution !in s.executions then s
    else
      var x := s.executions[e.execution];
      var g := x.grant;
      match e
      case StartRun(_, now) =>
        if !x.stage.Consumed? then s
        else if g.invocation in Rows(s, g.claims.claw).runs then SetStage(s, e.execution, Over)
        else SetStage(Execute(s, g.claims.claw, Tables.StartRun(g.invocation, now)), e.execution, Started)
      case MarkRunning(_) =>
        if !x.stage.Started? then s
        else
          var r := UpdateInvocation(s, g.invocation, Running);
          if r.Failure? then SetStage(s, e.execution, Over) else SetStage(r.value, e.execution, Marked)
      case CallProvider(_, ok) =>
        if !x.stage.Marked? then s
        else SetStage(s.(calls := s.calls + [Call(g, x.arguments, e.execution)]), e.execution, Called(ok))
      case FinishRun(_, now) =>
        if !x.stage.Called? then s
        else
          SetStage(Execute(s, g.claims.claw, Tables.FinishRun(g.invocation, x.stage.ok, now)), e.execution,
                   Recorded(x.stage.ok))
      case RecordOutcome(_) =>
        // A failure of `finishRun` is only a warning, so the outcome may be recorded without it.
        if !x.stage.Called? && !x.stage.Recorded? then s
        else
          var r := UpdateInvocation(s, g.invocation, if x.stage.ok then Succeeded else Failed);
          SetStage(if r.Success? then r.value else s, e.execution, Over)
  }

  function Apply(s: System, e: Event): System {
    match e
    case Confirm(action, now) =>
      s.(next := s.next + 1,
      confirmations := s.confirmations[s.next := Confirmation(action, Pending, now + CONFIRMATION_TTL)])
    case DecideOn(id, decider, approve, now, transactional) => DecideStep(s, id, decider, approve, now, transactional)
    case Issuing(claw, action, confirmation, now) => IssueStep(s, claw, action, confirmation, now)
    case Save(invocation) =>
      if invocation in s.issues && s.issues[invocation].stage.Signed?
      then s.(invocations := s.invocations[invocation := Issued],
      issues := s.issues[invocation := s.issues[invocation].(stage := Saved)])
      else s
    case Register(invocation) => RegisterStep(s, invocation)
    case Consume(claims, invocation, arguments, now) => ConsumeStep(s, claims, invocation, arguments, now)
    case EvictConfirmation(id) => s.(confirmations := s.confirmations - {id})
    case EvictInvocation(id) => s.(invocations := s.invocations - {id})
    case Elsewhere(claw, statement) =>
      if statement.RegisterGrant? || statement.ConsumeGrant? then s else Execute(s, claw, statement)
    case _ => ExecutionStep(s, e)
  }

  function Run(s: System, events: seq<Event>): System
    decreases |events|
  {
    if events == [] then s else Run(Apply(s, events[0]), events[1..])
  }

  // ---------- Confirmations and grants ----------

  ghost predicate ApprovalsOk(approvals: map<ConfirmationId, Approval>) {
    forall c :: c in approvals ==>
                  approvals[c].decider == approvals[c].action.requester && approvals[c].at < approvals[c].expiresAt
  }

  /** An approved confirmation has its approval on record and is not used up. */
  predicate ConfirmationOk(
    c: ConfirmationId, confirmation: Confirmation, approvals: map<ConfirmationId, Approval>,
    used: map<ConfirmationId, TokenId>)
  {
    && (confirmation.status.Pending? ==> c !in approvals && c !in used)
    && (confirmation.status.Approved? ==> c in approvals && c !in used && approvals[c].action == confirmation.action)
  }

  ghost predicate ConfirmationsOk(
    next: nat, confirmations: map<ConfirmationId, Confirmation>, approvals: map<ConfirmationId, Approval>,
    used: map<ConfirmationId, TokenId>)
  {
    && (forall c :: c in approvals ==> c < next)
    && (forall c :: c in used ==> c < next)
    && (forall c :: c in confirmations ==> c < next && ConfirmationOk(c, confirmations[c], approvals, used))
  }

  /** A grant for a capability that needs it has used up an approval of exactly its action. */
  predicate Backed(g: Grant, approvals: map<ConfirmationId, Approval>, used: map<ConfirmationId, TokenId>) {
    NeedsConfirmation(g.claims.action.capability) ==>
      && g.claims.confirmation.Some?
      && var c := g.claims.confirmation.value;
      && c in used && used[c] == g.claims.token
      && c in approvals && approvals[c].action == g.claims.action
  }

  ghost predicate MintedOk(
    next: nat, minted: map<TokenId, Grant>, approvals: map<ConfirmationId, Approval>,
    used: map<ConfirmationId, TokenId>)
  {
    forall t :: t in minted ==> t < next && minted[t].claims.token == t && Backed(minted[t], approvals, used)
  }

  predicate IsMinted(g: Grant, minted: map<TokenId, Grant>) {
    g.claims.token in minted && minted[g.claims.token] == g
  }

  /** The token of a pending issue is not out yet. */
  predicate IssueOk(
    i: InvocationId, g: Grant, tokens: set<Claims>, minted: map<TokenId, Grant>, consumed: map<TokenId, ExecutionId>)
  {
    i == g.invocation && IsMinted(g, minted) && g.claims !in tokens && g.claims.token !in consumed
  }

  ghost predicate IssuesOk(
    issues: map<InvocationId, Issue>, tokens: set<Claims>, minted: map<TokenId, Grant>,
    consumed: map<TokenId, ExecutionId>)
  {
    forall i :: i in issues ==> IssueOk(i, issues[i].grant, tokens, minted, consumed)
  }

  predicate TokenOk(claims: Claims, minted: map<TokenId, Grant>) {
    claims.token in minted && minted[claims.token].claims == claims
  }

  ghost predicate TokensOk(tokens: set<Claims>, minted: map<TokenId, Grant>) {
    forall claims :: claims in tokens ==> TokenOk(claims, minted)
  }

  // ---------- Grant rows and executions ----------

  /** A grant row belongs to a minted grant, and is unconsumed only while no execution has its token. */
  predicate RowOk(
    claw: ClawId, invocation: InvocationId, row: Tables.Grant, minted: map<TokenId, Grant>,
    consumed: map<TokenId, ExecutionId>)
  {
    && row.jti in minted && minted[row.jti].claims.claw == claw && minted[row.jti].invocation == invocation
    && (row.consumedAt.None? ==> row.jti !in consumed)
  }

  ghost predicate TableOk(
    claw: ClawId, grants: map<InvocationId, Tables.Grant>, minted: map<TokenId, Grant>,
    consumed: map<TokenId, ExecutionId>)
  {
    forall i :: i in grants ==> RowOk(claw, i, grants[i], minted, consumed)
  }

  ghost predicate RowsOk(
    claws: map<ClawId, Tables.Database>, minted: map<TokenId, Grant>, consumed: map<TokenId, ExecutionId>)
  {
    forall claw :: claw in claws ==> TableOk(claw, claws[claw].grants, minted, consumed)
  }

  predicate ExecutionOk(
    x: ExecutionId, execution: Execution, minted: map<TokenId, Grant>, consumed: map<TokenId, ExecutionId>)
  {
    && IsMinted(execution.grant, minted)
    && execution.arguments == execution.grant.claims.action.digest
    && execution.grant.claims.token in consumed && consumed[execution.grant.claims.token] == x
  }

  ghost predicate ExecutionsOk(
    next: nat, executions: map<ExecutionId, Execution>, minted: map<TokenId, Grant>,
    consumed: map<TokenId, ExecutionId>)
  {
    && (forall x :: x in executions ==> x < next && ExecutionOk(x, executions[x], minted, consumed))
    && (forall t :: t in consumed ==> t in minted)
  }

  predicate BeforeCall(stage: ExecutionStage) { stage.Consumed? || stage.Started? || stage.Marked? }

  predicate CallOk(c: Call, executions: map<ExecutionId, Execution>) {
    && c.execution in executions && c.grant == executions[c.execution].grant
    && c.arguments == executions[c.execution].arguments && !BeforeCall(executions[c.execution].stage)
  }

  ghost predicate CallsOk(calls: seq<Call>, executions: map<ExecutionId, Execution>) {
    && (forall k :: 0 <= k < |calls| ==> CallOk(calls[k], executions))
    && (forall j, k :: 0 <= j < k < |calls| ==> calls[j].execution != calls[k].execution)
  }

  ghost predicate Inv(s: System) {
    && ApprovalsOk(s.approvals)
    && ConfirmationsOk(s.next, s.confirmations, s.approvals, s.used)
    && MintedOk(s.next, s.minted, s.approvals, s.used)
    && IssuesOk(s.issues, s.tokens, s.minted, s.consumed)
    && TokensOk(s.tokens, s.minted)
    && RowsOk(s.claws, s.minted, s.consumed)
    && ExecutionsOk(s.next, s.executions, s.minted, s.consumed)
    && CallsOk(s.calls, s.executions)
  }

  // ---------- Parts of the invariant ----------

  /** Statements other than the two that concern them only drop grant rows. */
  lemma OthersDropGrants(db: Tables.Database, statement: Tables.Statement)
    requires !statement.RegisterGrant? && !statement.ConsumeGrant?
    ensures forall i :: i in Tables.Exec(db, statement).grants ==>
                          i in db.grants && Tables.Exec(db, statement).grants[i] == db.grants[i]
  {
  }

  lemma MintedGrows(
    next: nat, minted: map<TokenId, Grant>, approvals: map<ConfirmationId, Approval>, used: map<ConfirmationId, TokenId>,
    g: Grant, used': map<ConfirmationId, TokenId>)
    requires MintedOk(next, minted, approvals, used) && g.claims.token == next && Backed(g, approvals, used')
    requires used.Keys <= used'.Keys && forall c :: c in used ==> used'[c] == used[c]
    ensures MintedOk(next + 2, minted[next := g], approvals, used')
  {
    forall t | t in minted
      ensures Backed(minted[t], approvals, used')
    {
      assert Backed(minted[t], approvals, used);
    }
  }

  /** Approving records an approval where there was none. */
  lemma MintedKeepsApproval(
    next: nat, minted: map<TokenId, Grant>, approvals: map<ConfirmationId, Approval>, used: map<ConfirmationId, TokenId>,
    c: ConfirmationId, approval: Approval)
    requires MintedOk(next, minted, approvals, used) && c !in approvals
    ensures MintedOk(next, minted, approvals[c := approval], used)
  {
    forall t | t in minted
      ensures Backed(minted[t], approvals[c := approval], used)
    {
      assert Backed(minted[t], approvals, used);
    }
  }

  lemma RowsKeepMinting(
    claws: map<ClawId, Tables.Database>, minted: map<TokenId, Grant>, consumed: map<TokenId, ExecutionId>, g: Grant)
    requires RowsOk(claws, minted, consumed) && g.claims.token !in minted
    ensures RowsOk(claws, minted[g.claims.token := g], consumed)
  {
    forall claw | claw in claws
      ensures TableOk(claw, claws[claw].grants, minted[g.claims.token := g], consumed)
    {
      forall i | i in claws[claw].grants
        ensures RowOk(claw, i, claws[claw].grants[i], minted[g.claims.token := g], consumed)
      {
        assert RowOk(claw, i, claws[claw].grants[i], minted, consumed);
      }
    }
  }

  lemma OthersKeepMinting(s: System, g: Grant)
    requires Inv(s) && g.claims.token == s.next
    ensures IssuesOk(s.issues, s.tokens, s.minted[s.next := g], s.consumed)
    ensures s.next !in s.minted && s.next !in s.consumed && g.claims !in s.tokens
    ensures TokensOk(s.tokens, s.minted[s.next := g])
    ensures ExecutionsOk(s.next + 2, s.executions, s.minted[s.next := g], s.consumed)
  {
    forall x | x in s.executions
      ensures ExecutionOk(x, s.executions[x], s.minted[s.next := g], s.consumed)
    {
      assert ExecutionOk(x, s.executions[x], s.minted, s.consumed);
    }
    forall claims | claims in s.tokens
      ensures TokenOk(claims, s.minted[s.next := g])
    {
      assert TokenOk(claims, s.minted);
    }
    forall i | i in s.issues
      ensures IssueOk(i, s.issues[i].grant, s.tokens, s.minted[s.next := g], s.consumed)
    {
      assert IssueOk(i, s.issues[i].grant, s.tokens, s.minted, s.consumed);
    }
  }

  // ---------- Every step keeps the invariant ----------

  lemma ConfirmKeepsInv(s: System, action: Action, now: Time)
    requires Inv(s)
    ensures Inv(Apply(s, Confirm(action, now)))
  {
  }

  lemma DecideKeepsInv(s: System, id: ConfirmationId, decider: PrincipalId, approve: bool, now: Time, transactional: bool)
    requires Inv(s)
    ensures Inv(DecideStep(s, id, decider, approve, now, transactional))
  {
    if id in s.confirmations {
      var current := s.confirmations[id];
      if Decide(current, decider, approve, now).Success? {
        if approve {
          ApprovalKeepsInv(s, id, Approval(current.action, decider, now, current.expiresAt));
        } else {
          ClosingKeepsInv(s, id, Denied);
        }
      } else {
        ClosingKeepsInv(s, id, Expired);
      }
    }
  }

  lemma ApprovalKeepsInv(s: System, id: ConfirmationId, approval: Approval)
    requires Inv(s) && id in s.confirmations && s.confirmations[id].status.Pending?
    requires approval.action == s.confirmations[id].action && approval.decider == approval.action.requester
    requires approval.at < approval.expiresAt
    ensures Inv(s.(confirmations := s.confirmations[id := s.confirmations[id].(status := Approved)],
                approvals := s.approvals[id := approval]))
  {
    assert ConfirmationOk(id, s.confirmations[id], s.approvals, s.used);
    MintedKeepsApproval(s.next, s.minted, s.approvals, s.used, id, approval);
    DecidedConfirmation(s.next, s.confirmations, s.approvals, s.used, id, approval);
  }

  lemma ClosingKeepsInv(s: System, id: ConfirmationId, status: ConfirmationStatus)
    requires Inv(s) && id in s.confirmations && (status.Denied? || status.Expired?)
    ensures Inv(s.(confirmations := s.confirmations[id := s.confirmations[id].(status := status)]))
  {
  }

  lemma DecidedConfirmation(
    next: nat, confirmations: map<ConfirmationId, Confirmation>, approvals: map<ConfirmationId, Approval>,
    used: map<ConfirmationId, TokenId>, id: ConfirmationId, approval: Approval)
    requires ConfirmationsOk(next, confirmations, approvals, used)
    requires id in confirmations && confirmations[id].status.Pending? && approval.action == confirmations[id].action
    ensures ConfirmationsOk(next, confirmations[id := confirmations[id].(status := Approved)], approvals[id := approval], used)
  {
    forall c | c in confirmations && c != id
      ensures ConfirmationOk(c, confirmations[c], approvals[id := approval], used)
    {
      assert ConfirmationOk(c, confirmations[c], approvals, used);
    }
    assert ConfirmationOk(id, confirmations[id], approvals, used);
  }

  lemma UsedConfirmation(
    next: nat, confirmations: map<ConfirmationId, Confirmation>, approvals: map<ConfirmationId, Approval>,
    used: map<ConfirmationId, TokenId>, id: ConfirmationId, token: TokenId)
    requires ConfirmationsOk(next, confirmations, approvals, used)
    requires id in confirmations && confirmations[id].status.Approved?
    ensures ConfirmationsOk(next + 2, confirmations[id := confirmations[id].(status := Used)], approvals, used[id := token])
    ensures id !in used && id in approvals && approvals[id].action == confirmations[id].action
  {
    forall c | c in confirmations && c != id
      ensures ConfirmationOk(c, confirmations[c], approvals, used[id := token])
    {
      assert ConfirmationOk(c, confirmations[c], approvals, used);
    }
    assert ConfirmationOk(id, confirmations[id], approvals, used);
  }

  /** Mints a grant; `confirmations` and `used` are those after a confirmation was used up for it. */
  lemma MintKeepsInv(
    s: System, g: Grant, confirmations: map<ConfirmationId, Confirmation>, used: map<ConfirmationId, TokenId>)
    requires Inv(s) && g.claims.token == s.next && g.invocation == s.next + 1
    requires ConfirmationsOk(s.next + 2, confirmations, s.approvals, used)
    requires MintedOk(s.next + 2, s.minted[s.next := g], s.approvals, used)
    ensures Inv(s.(next := s.next + 2, minted := s.minted[s.next := g],
                issues := s.issues[s.next + 1 := Issue(g, Signed)], confirmations := confirmations, used := used))
  {
    OthersKeepMinting(s, g);
    RowsKeepMinting(s.claws, s.minted, s.consumed, g);
  }

  lemma IssueShape(s: System, g: Grant, now: Time)
    requires g.claims.token == s.next && g.invocation == s.next + 1 && g.claims.expiresAt == now + GRANT_TTL
    requires MayIssue(s, g.claims.action, g.claims.confirmation, now)
    ensures var after := IssueStep(s, g.claims.claw, g.claims.action, g.claims.confirmation, now);
            if NeedsConfirmation(g.claims.action.capability)
            then
              var c := g.claims.confirmation.value;
              && c in s.confirmations && s.confirmations[c].status.Approved?
              && s.confirmations[c].action == g.claims.action
              && after == s.(next := s.next + 2, minted := s.minted[s.next := g],
                          issues := s.issues[s.next + 1 := Issue(g, Signed)],
                          confirmations := s.confirmations[c := s.confirmations[c].(status := Used)],
                          used := s.used[c := s.next])
            else
              after == s.(next := s.next + 2, minted := s.minted[s.next := g],
              issues := s.issues[s.next + 1 := Issue(g, Signed)])
  {
  }

  lemma IssueKeepsInv(s: System, claw: ClawId, action: Action, confirmation: Option<ConfirmationId>, now: Time)
    requires Inv(s)
    ensures Inv(IssueStep(s, claw, action, confirmation, now))
  {
    if MayIssue(s, action, confirmation, now) {
      var g := Grant(Claims(claw, action, confirmation, s.next, now + GRANT_TTL), s.next + 1);
      IssueShape(s, g, now);
      if NeedsConfirmation(action.capability) {
        ConfirmedIssue(s, g, confirmation.value);
      } else {
        UnconfirmedIssue(s, g);
      }
    }
  }

  lemma UnconfirmedIssue(s: System, g: Grant)
    requires Inv(s) && g.claims.token == s.next && g.invocation == s.next + 1
    requires !NeedsConfirmation(g.claims.action.capability)
    ensures Inv(s.(next := s.next + 2, minted := s.minted[s.next := g],
                issues := s.issues[s.next + 1 := Issue(g, Signed)]))
  {
    MintedGrows(s.next, s.minted, s.approvals, s.used, g, s.used);
    MintKeepsInv(s, g, s.confirmations, s.used);
  }

  lemma ConfirmedIssue(s: System, g: Grant, c: ConfirmationId)
    requires Inv(s) && g.claims.token == s.next && g.invocation == s.next + 1 && g.claims.confirmation == Some(c)
    requires c in s.confirmations && s.confirmations[c].status.Approved? && s.confirmations[c].action == g.claims.action
    ensures Inv(s.(next := s.next + 2, minted := s.minted[s.next := g],
                issues := s.issues[s.next + 1 := Issue(g, Signed)],
                confirmations := s.confirmations[c := s.confirmations[c].(status := Used)],
                used := s.used[c := s.next]))
  {
    UsedConfirmation(s.next, s.confirmations, s.approvals, s.used, c, s.next);
    MintedGrows(s.next, s.minted, s.approvals, s.used, g, s.used[c := s.next]);
    MintKeepsInv(s, g, s.confirmations[c := s.confirmations[c].(status := Used)], s.used[c := s.next]);
  }

  lemma SaveKeepsInv(s: System, invocation: InvocationId)
    requires Inv(s)
    ensures Inv(Apply(s, Save(invocation)))
  {
  }

  lemma TableKeepsInv(s: System, claw: ClawId, db: Tables.Database)
    requires Inv(s) && TableOk(claw, db.grants, s.minted, s.consumed)
    ensures Inv(s.(claws := s.claws[claw := db]))
  {
  }

  lemma OtherStatementKeepsInv(s: System, claw: ClawId, statement: Tables.Statement)
    requires Inv(s) && !statement.RegisterGrant? && !statement.ConsumeGrant?
    ensures Inv(Execute(s, claw, statement))
  {
    OthersDropGrants(Rows(s, claw), statement);
    RowsOfClaw(s, claw);
    TableKeepsInv(s, claw, Tables.Exec(Rows(s, claw), statement));
  }

  lemma RowsOfClaw(s: System, claw: ClawId)
    requires RowsOk(s.claws, s.minted, s.consumed)
    ensures TableOk(claw, Rows(s, claw).grants, s.minted, s.consumed)
  {
  }

  lemma RegisterKeepsInv(s: System, invocation: InvocationId)
    requires Inv(s)
    ensures Inv(RegisterStep(s, invocation))
  {
    if invocation in s.issues && s.issues[invocation].stage.Saved? {
      var g := s.issues[invocation].grant;
      assert IssueOk(invocation, g, s.tokens, s.minted, s.consumed);
      RowsOfClaw(s, g.claims.claw);
      RegisteredTable(Rows(s, g.claims.claw), g, s.minted, s.consumed);
      var stored := Execute(s, g.claims.claw, RegisterStatement(g));
      TableKeepsInv(s, g.claims.claw, Tables.Exec(Rows(s, g.claims.claw), RegisterStatement(g)));
      TokenGoesOut(stored, invocation, g);
    }
  }

  lemma TokenGoesOut(s: System, invocation: InvocationId, g: Grant)
    requires Inv(s) && invocation in s.issues && s.issues[invocation].grant == g
    ensures Inv(s.(issues := s.issues - {invocation}, tokens := s.tokens + {g.claims}))
  {
    assert IssueOk(invocation, g, s.tokens, s.minted, s.consumed);
    forall i | i in s.issues && i != invocation
      ensures IssueOk(i, s.issues[i].grant, s.tokens + {g.claims}, s.minted, s.consumed)
    {
      assert IssueOk(i, s.issues[i].grant, s.tokens, s.minted, s.consumed);
    }
    assert TokenOk(g.claims, s.minted);
  }

  lemma RegisteredTable(
    db: Tables.Database, g: Grant, minted: map<TokenId, Grant>, consumed: map<TokenId, ExecutionId>)
    requires TableOk(g.claims.claw, db.grants, minted, consumed) && IsMinted(g, minted) && g.claims.token !in consumed
    ensures TableOk(g.claims.claw, Tables.Exec(db, RegisterStatement(g)).grants, minted, consumed)
  {
  }

  lemma ConsumeKeepsInv(s: System, claims: Claims, invocation: InvocationId, arguments: Digest, now: Time)
    requires Inv(s)
    ensures Inv(ConsumeStep(s, claims, invocation, arguments, now))
  {
    var db := Rows(s, claims.claw);
    if claims in s.tokens && claims.expiresAt > now && arguments == claims.action.digest &&
       Tables.GrantMatches(db, invocation, claims.token, arguments, now) {
      var x := Execution(Grant(claims, invocation), arguments, Consumed);
      RowsOfClaw(s, claims.claw);
      assert RowOk(claims.claw, invocation, db.grants[invocation], s.minted, s.consumed);
      assert TokenOk(claims, s.minted);
      ConsumedRows(s, claims, invocation, arguments, now);
      ConsumedIssues(s, claims);
      ConsumedExecutions(s, x);
      CallsKeep(s.calls, s.executions, s.next, x);
    }
  }

  /** The consumed row was the only unconsumed one with its token. */
  lemma ConsumedRows(s: System, claims: Claims, invocation: InvocationId, arguments: Digest, now: Time)
    requires RowsOk(s.claws, s.minted, s.consumed)
    requires Tables.GrantMatches(Rows(s, claims.claw), invocation, claims.token, arguments, now)
    ensures RowsOk(Execute(s, claims.claw, Tables.ConsumeGrant(invocation, claims.token, arguments, now)).claws, s.minted,
                   s.consumed[claims.token := s.next])
  {
    var after := Execute(s, claims.claw, Tables.ConsumeGrant(invocation, claims.token, arguments, now)).claws;
    RowsOfClaw(s, claims.claw);
    assert RowOk(claims.claw, invocation, Rows(s, claims.claw).grants[invocation], s.minted, s.consumed);
    forall claw, i | claw in after && i in after[claw].grants
      ensures RowOk(claw, i, after[claw].grants[i], s.minted, s.consumed[claims.token := s.next])
    {
      RowsOfClaw(s, claw);
      assert RowOk(claw, i, Rows(s, claw).grants[i], s.minted, s.consumed);
    }
  }

  lemma ConsumedIssues(s: System, claims: Claims)
    requires IssuesOk(s.issues, s.tokens, s.minted, s.consumed) && TokensOk(s.tokens, s.minted) && claims in s.tokens
    ensures IssuesOk(s.issues, s.tokens, s.minted, s.consumed[claims.token := s.next])
  {
    assert TokenOk(claims, s.minted);
    forall i | i in s.issues
      ensures IssueOk(i, s.issues[i].grant, s.tokens, s.minted, s.consumed[claims.token := s.next])
    {
      assert IssueOk(i, s.issues[i].grant, s.tokens, s.minted, s.consumed);
    }
  }

  lemma ConsumedExecutions(s: System, x: Execution)
    requires ExecutionsOk(s.next, s.executions, s.minted, s.consumed)
    requires IsMinted(x.grant, s.minted) && x.grant.claims.token !in s.consumed
    requires x.arguments == x.grant.claims.action.digest
    ensures ExecutionsOk(s.next + 1, s.executions[s.next := x], s.minted, s.consumed[x.grant.claims.token := s.next])
  {
    forall y | y in s.executions
      ensures ExecutionOk(y, s.executions[y], s.minted, s.consumed[x.grant.claims.token := s.next])
    {
      assert ExecutionOk(y, s.executions[y], s.minted, s.consumed);
    }
  }

  /** Calls stay in order while executions start and move on. */
  lemma CallsKeep(calls: seq<Call>, executions: map<ExecutionId, Execution>, id: ExecutionId, x: Execution)
    requires CallsOk(calls, executions)
    requires id in executions ==>
               x.grant == executions[id].grant && x.arguments == executions[id].arguments &&
               (BeforeCall(x.stage) ==> BeforeCall(executions[id].stage))
    ensures CallsOk(calls, executions[id := x])
  {
    forall k | 0 <= k < |calls|
      ensures CallOk(calls[k], executions[id := x])
    {
      assert CallOk(calls[k], executions);
    }
  }

  lemma StageKeepsInv(s: System, id: ExecutionId, stage: ExecutionStage)
    requires Inv(s) && id in s.executions
    requires BeforeCall(stage) ==> BeforeCall(s.executions[id].stage)
    ensures Inv(SetStage(s, id, stage))
  {
    var x := s.executions[id].(stage := stage);
    CallsKeep(s.calls, s.executions, id, x);
    ExecutionsMove(s.next, s.executions, s.minted, s.consumed, id, stage);
  }

  lemma ExecutionsMove(
    next: nat, executions: map<ExecutionId, Execution>, minted: map<TokenId, Grant>,
    consumed: map<TokenId, ExecutionId>, id: ExecutionId, stage: ExecutionStage)
    requires ExecutionsOk(next, executions, minted, consumed) && id in executions
    ensures ExecutionsOk(next, executions[id := executions[id].(stage := stage)], minted, consumed)
  {
    forall y | y in executions
      ensures ExecutionOk(y, executions[id := executions[id].(stage := stage)][y], minted, consumed)
    {
      assert ExecutionOk(y, executions[y], minted, consumed);
    }
  }

  lemma InvocationsKeepInv(s: System, invocations: map<InvocationId, InvocationStatus>)
    requires Inv(s)
    ensures Inv(s.(invocations := invocations))
  {
  }

  lemma CallsGrow(calls: seq<Call>, executions: map<ExecutionId, Execution>, c: Call)
    requires CallsOk(calls, executions) && CallOk(c, executions)
    requires forall k :: 0 <= k < |calls| ==> calls[k].execution != c.execution
    ensures CallsOk(calls + [c], executions)
  {
  }

  lemma CallKeepsInv(s: System, id: ExecutionId, ok: bool)
    requires Inv(s) && id in s.executions && s.executions[id].stage.Marked?
    ensures Inv(SetStage(s.(calls := s.calls + [Call(s.executions[id].grant, s.executions[id].arguments, id)]), id, Called(ok)))
  {
    var x := s.executions[id];
    var calls := s.calls + [Call(x.grant, x.arguments, id)];
    var executions := s.executions[id := x.(stage := Called(ok))];
    forall k | 0 <= k < |s.calls|
      ensures s.calls[k].execution != id
    {
      assert CallOk(s.calls[k], s.executions);
    }
    CallsKeep(s.calls, s.executions, id, x.(stage := Called(ok)));
    CallsGrow(s.calls, executions, Call(x.grant, x.arguments, id));
    ExecutionsMove(s.next, s.executions, s.minted, s.consumed, id, Called(ok));
  }

  lemma StatementAndStage(s: System, id: ExecutionId, statement: Tables.Statement, stage: ExecutionStage)
    requires Inv(s) && id in s.executions && (statement.StartRun? || statement.FinishRun?)
    requires BeforeCall(stage) ==> BeforeCall(s.executions[id].stage)
    ensures Inv(SetStage(Execute(s, s.executions[id].grant.claims.claw, statement), id, stage))
  {
    OtherStatementKeepsInv(s, s.executions[id].grant.claims.claw, statement);
    StageKeepsInv(Execute(s, s.executions[id].grant.claims.claw, statement), id, stage);
  }

  lemma UpdateAndStage(s: System, id: ExecutionId, status: InvocationStatus, stage: ExecutionStage)
    requires Inv(s) && id in s.executions
    requires BeforeCall(stage) ==> BeforeCall(s.executions[id].stage)
    ensures var r := UpdateInvocation(s, s.executions[id].grant.invocation, status);
            Inv(SetStage(s, id, stage)) && (r.Success? ==> Inv(SetStage(r.value, id, stage)))
  {
    StageKeepsInv(s, id, stage);
    var r := UpdateInvocation(s, s.executions[id].grant.invocation, status);
    if r.Success? {
      InvocationsKeepInv(SetStage(s, id, stage), r.value.invocations);
    }
  }

  lemma ExecutionKeepsInv(s: System, e: Event)
    requires Inv(s) && (e.StartRun? || e.MarkRunning? || e.CallProvider? || e.FinishRun? || e.RecordOutcome?)
    ensures Inv(ExecutionStep(s, e))
  {
    var id := e.execution;
    if id in s.executions {
      var x := s.executions[id];
      match e
      case StartRun(_, now) =>
        if x.stage.Consumed? {
          StageKeepsInv(s, id, Over);
          StatementAndStage(s, id, Tables.StartRun(x.grant.invocation, now), Started);
        }
      case MarkRunning(_) =>
        if x.stage.Started? {
          StageKeepsInv(s, id, Over);
          UpdateAndStage(s, id, Running, Marked);
        }
      case CallProvider(_, ok) =>
        if x.stage.Marked? {
          CallKeepsInv(s, id, ok);
        }
      case FinishRun(_, now) =>
        if x.stage.Called? {
          StatementAndStage(s, id, Tables.FinishRun(x.grant.invocation, x.stage.ok, now), Recorded(x.stage.ok));
        }
      case RecordOutcome(_) =>
        if x.stage.Called? || x.stage.Recorded? {
          UpdateAndStage(s, id, if x.stage.ok then Succeeded else Failed, Over);
        }
    }
  }

  lemma ApplyKeepsInv(s: System, e: Event)
    requires Inv(s)
    ensures Inv(Apply(s, e))
  {
    match e
    case Confirm(action, now) => ConfirmKeepsInv(s, action, now);
    case DecideOn(id, decider, approve, now, transactional) => DecideKeepsInv(s, id, decider, approve, now, transactional);
    case Issuing(claw, action, confirmation, now) => IssueKeepsInv(s, claw, action, confirmation, now);
    case Save(invocation) => SaveKeepsInv(s, invocation);
    case Register(invocation) => RegisterKeepsInv(s, invocation);
    case Consume(claims, invocation, arguments, now) => ConsumeKeepsInv(s, claims, invocation, arguments, now);
    case EvictConfirmation(id) =>
    case EvictInvocation(id) => InvocationsKeepInv(s, s.invocations - {id});
    case Elsewhere(claw, statement) =>
      if !statement.RegisterGrant? && !statement.ConsumeGrant? {
        OtherStatementKeepsInv(s, claw, statement);
      }
    case _ => ExecutionKeepsInv(s, e);
  }

  lemma {:induction false} RunKeepsInv(s: System, events: seq<Event>)
    requires Inv(s)
    ensures Inv(Run(s, events))
    decreases |events|
  {
    if events != [] {
      ApplyKeepsInv(s, events[0]);
      RunKeepsInv(Apply(s, events[0]), events[1..]);
    }
  }

  // ---------- Main results ----------

  /** The confirmation a call with an always-confirmed capability was made under. */
  function ConfirmationOf(c: Call): Option<ConfirmationId> { c.grant.claims.confirmation }

  /**
   One approval, one execution: each provider call for a capability that must be confirmed is made under a
   confirmation that its own requester approved, before it expired, for this persona, actor, capability, target and
   these arguments; two such calls are made under different confirmations.
   */
  lemma OneApprovalPerCall(events: seq<Event>, k: nat)
    requires k < |Run(INITIAL, events).calls|
    requires NeedsConfirmation(Run(INITIAL, events).calls[k].grant.claims.action.capability)
    ensures var s := Run(INITIAL, events);
            var call := s.calls[k];
            && ConfirmationOf(call).Some? && ConfirmationOf(call).value in s.approvals
            && var approval := s.approvals[ConfirmationOf(call).value];
            && approval.action == call.grant.claims.action
            && approval.decider == approval.action.requester && approval.at < approval.expiresAt
            && call.arguments == approval.action.digest
            && forall j :: 0 <= j < |s.calls| && j != k &&
                           NeedsConfirmation(s.calls[j].grant.claims.action.capability) ==>
                             ConfirmationOf(s.calls[j]) != ConfirmationOf(call)
  {
    RunKeepsInv(INITIAL, events);
    var s := Run(INITIAL, events);
    CallBacked(s, k);
    forall j | 0 <= j < |s.calls| && j != k && NeedsConfirmation(s.calls[j].grant.claims.action.capability)
      ensures ConfirmationOf(s.calls[j]) != ConfirmationOf(s.calls[k])
    {
      CallBacked(s, j);
      CallsDiffer(s, j, k);
    }
  }

  lemma CallBacked(s: System, k: nat)
    requires Inv(s) && k < |s.calls|
    ensures Backed(s.calls[k].grant, s.approvals, s.used) && IsMinted(s.calls[k].grant, s.minted)
    ensures s.calls[k].arguments == s.calls[k].grant.claims.action.digest
  {
    assert CallOk(s.calls[k], s.executions);
    var x := s.calls[k].execution;
    assert ExecutionOk(x, s.executions[x], s.minted, s.consumed);
  }

  lemma CallsDiffer(s: System, j: nat, k: nat)
    requires Inv(s) && j < |s.calls| && k < |s.calls| && j != k
    ensures s.calls[j].grant.claims.token != s.calls[k].grant.claims.token
  {
    assert CallOk(s.calls[j], s.executions) && CallOk(s.calls[k], s.executions);
    assert ExecutionOk(s.calls[j].execution, s.executions[s.calls[j].execution], s.minted, s.consumed);
    assert ExecutionOk(s.calls[k].execution, s.executions[s.calls[k].execution], s.minted, s.consumed);
  }

  /** Every grant is executed at most once, whoever presents its token and however often. */
  lemma GrantExecutesAtMostOnce(events: seq<Event>, j: nat, k: nat)
    requires j < |Run(INITIAL, events).calls| && k < |Run(INITIAL, events).calls| && j != k
    ensures Run(INITIAL, events).calls[j].grant != Run(INITIAL, events).calls[k].grant
  {
    RunKeepsInv(INITIAL, events);
    CallsDiffer(Run(INITIAL, events), j, k);
  }

  predicate RunOver(run: Tables.GovernedRun) { !run.status.RunRunning? }

  function ExecAll(db: Tables.Database, statements: seq<Tables.Statement>): Tables.Database
    decreases |statements|
  {
    if statements == [] then db else ExecAll(Tables.Exec(db, statements[0]), statements[1..])
  }

  /** The run row is there all along, in particular never pruned. */
  predicate RowStays(db: Tables.Database, statements: seq<Tables.Statement>, i: InvocationId)
    decreases |statements|
  {
    i in db.runs && (statements == [] || RowStays(Tables.Exec(db, statements[0]), statements[1..], i))
  }

  lemma StatementKeepsOutcome(db: Tables.Database, statement: Tables.Statement, i: InvocationId)
    requires i in db.runs && RunOver(db.runs[i]) && i in Tables.Exec(db, statement).runs
    ensures Tables.Exec(db, statement).runs[i] == db.runs[i]
  {
  }

  /** A terminal run row keeps its outcome under any statements, until it is pruned. */
  lemma {:induction false} RunOutcomeIsFinal(
    db: Tables.Database, statements: seq<Tables.Statement>, i: InvocationId)
    requires RowStays(db, statements, i) && RunOver(db.runs[i])
    ensures var after := ExecAll(db, statements); i in after.runs && after.runs[i] == db.runs[i]
    decreases |statements|
  {
    if statements != [] {
      StatementKeepsOutcome(db, statements[0], i);
      RunOutcomeIsFinal(Tables.Exec(db, statements[0]), statements[1..], i);
    }
  }

  /** Invocation ids of unsaved issues are not in the store yet. */
  ghost predicate Fresh(
    next: nat, issues: map<InvocationId, Issue>, saved: map<InvocationId, InvocationStatus>)
  {
    && (forall i :: i in saved ==> i < next)
    && (forall i :: i in issues ==> i < next && (issues[i].stage.Signed? ==> i !in saved))
  }

  ghost predicate FreshSaves(s: System) { Fresh(s.next, s.issues, s.invocations) }

  /** The stored invocations that are terminal before are unchanged after. */
  ghost predicate KeepsOutcomes(before: map<InvocationId, InvocationStatus>, after: map<InvocationId, InvocationStatus>) {
    forall i :: i in before && Terminal(before[i]) ==> i in after && after[i] == before[i]
  }

  /** What an execution step may do to the stored invocations. */
  ghost predicate OutcomesKept(s: System, after: System) {
    && after.next == s.next && after.issues == s.issues
    && (forall i :: i in after.invocations ==> i in s.invocations)
    && KeepsOutcomes(s.invocations, after.invocations)
  }

  lemma RowsChangeOnly(s: System, id: ExecutionId, stage: ExecutionStage, claws: map<ClawId, Tables.Database>)
    requires id in s.executions
    ensures OutcomesKept(s, SetStage(s.(claws := claws), id, stage))
  {
  }

  lemma UpdateKeepsOutcomes(s: System, id: ExecutionId, status: InvocationStatus, stage: ExecutionStage)
    requires id in s.executions
    ensures var r := UpdateInvocation(s, s.executions[id].grant.invocation, status);
            OutcomesKept(s, SetStage(if r.Success? then r.value else s, id, stage))
  {
  }

  lemma RowStepsKeepOutcomes(s: System, e: Event)
    requires e.StartRun? || e.FinishRun?
    ensures OutcomesKept(s, ExecutionStep(s, e))
  {
    if e.execution in s.executions {
      var x := s.executions[e.execution];
      var claw := x.grant.claims.claw;
      if e.StartRun? {
        RowsChangeOnly(s, e.execution, Over, s.claws);
        RowsChangeOnly(s, e.execution, Started, Execute(s, claw, Tables.StartRun(x.grant.invocation, e.now)).claws);
      } else if x.stage.Called? {
        RowsChangeOnly(s, e.execution, Recorded(x.stage.ok),
                       Execute(s, claw, Tables.FinishRun(x.grant.invocation, x.stage.ok, e.now)).claws);
      }
    }
  }

  lemma StatusStepsKeepOutcomes(s: System, e: Event)
    requires e.MarkRunning? || e.RecordOutcome?
    ensures OutcomesKept(s, ExecutionStep(s, e))
  {
    if e.execution in s.executions {
      var x := s.executions[e.execution];
      if e.MarkRunning? {
        UpdateKeepsOutcomes(s, e.execution, Running, Marked);
        UpdateKeepsOutcomes(s, e.execution, Running, Over);
      } else if x.stage.Called? || x.stage.Recorded? {
        UpdateKeepsOutcomes(s, e.execution, if x.stage.ok then Succeeded else Failed, Over);
      }
    }
  }

  lemma CallKeepsOutcomes(s: System, e: Event)
    requires e.CallProvider?
    ensures OutcomesKept(s, ExecutionStep(s, e))
  {
  }

  lemma ExecutionKeepsOutcomes(s: System, e: Event)
    requires FreshSaves(s)
    requires e.StartRun? || e.FinishRun? || e.MarkRunning? || e.CallProvider? || e.RecordOutcome?
    ensures FreshSaves(Apply(s, e)) && KeepsOutcomes(s.invocations, Apply(s, e).invocations)
  {
    if e.StartRun? || e.FinishRun? {
      RowStepsKeepOutcomes(s, e);
    } else if e.CallProvider? {
      CallKeepsOutcomes(s, e);
    } else {
      StatusStepsKeepOutcomes(s, e);
    }
  }

  lemma FreshGrows(
    next: nat, issues: map<InvocationId, Issue>, saved: map<InvocationId, InvocationStatus>, g: Grant)
    requires Fresh(next, issues, saved)
    ensures Fresh(next + 2, issues[next + 1 := Issue(g, Signed)], saved)
  {
  }

  lemma FreshSaved(next: nat, issues: map<InvocationId, Issue>, saved: map<InvocationId, InvocationStatus>, i: InvocationId)
    requires Fresh(next, issues, saved) && i in issues && issues[i].stage.Signed?
    ensures Fresh(next, issues[i := issues[i].(stage := Saved)], saved[i := Issued])
    ensures KeepsOutcomes(saved, saved[i := Issued])
  {
  }

  lemma IssuingKeepsFresh(
    s: System, claw: ClawId, action: Action, confirmation: Option<ConfirmationId>, now: Time)
    requires FreshSaves(s)
    ensures FreshSaves(IssueStep(s, claw, action, confirmation, now))
    ensures IssueStep(s, claw, action, confirmation, now).invocations == s.invocations
  {
    var after := IssueStep(s, claw, action, confirmation, now);
    if after.next == s.next + 2 {
      FreshGrows(s.next, s.issues, s.invocations, after.issues[s.next + 1].grant);
    }
  }

  lemma SaveKeepsFresh(s: System, e: Event)
    requires FreshSaves(s) && e.Save?
    ensures FreshSaves(Apply(s, e)) && KeepsOutcomes(s.invocations, Apply(s, e).invocations)
  {
    if e.invocation in s.issues && s.issues[e.invocation].stage.Signed? {
      FreshSaved(s.next, s.issues, s.invocations, e.invocation);
    }
  }

  lemma ConfirmationsKeepFresh(s: System, next: nat, confirmations: map<ConfirmationId, Confirmation>)
    requires FreshSaves(s) && next >= s.next
    ensures FreshSaves(s.(next := next, confirmations := confirmations))
  {
  }

  lemma EvictionKeepsFresh(s: System, e: Event)
    requires FreshSaves(s) && e.EvictInvocation?
    ensures FreshSaves(Apply(s, e)) && KeepsOutcomes(s.invocations - {e.id}, Apply(s, e).invocations)
  {
  }

  lemma ApplyKeepsOutcomes(s: System, e: Event)
    requires FreshSaves(s)
    ensures FreshSaves(Apply(s, e))
    ensures KeepsOutcomes(if e.EvictInvocation? then s.invocations - {e.id} else s.invocations, Apply(s, e).invocations)
  {
    match e
    case Confirm(action, now) =>
      ConfirmationsKeepFresh(s, s.next + 1,
                             s.confirmations[s.next := Confirmation(action, Pending, now + CONFIRMATION_TTL)]);
    case DecideOn(id, decider, approve, now, transactional) =>
      assert DecideStep(s, id, decider, approve, now, transactional).invocations == s.invocations;
    case Issuing(claw, action, confirmation, now) => IssuingKeepsFresh(s, claw, action, confirmation, now);
    case Save(_) => SaveKeepsFresh(s, e);
    case EvictConfirmation(id) => ConfirmationsKeepFresh(s, s.next, s.confirmations - {id});
    case EvictInvocation(_) => EvictionKeepsFresh(s, e);
    case Register(i) => assert RegisterStep(s, i).invocations == s.invocations;
    case Consume(claims, i, arguments, now) => assert ConsumeStep(s, claims, i, arguments, now).issues == s.issues;
    case Elsewhere(claw, statement) => assert Execute(s, claw, statement).issues == s.issues;
    case _ => ExecutionKeepsOutcomes(s, e);
  }

  predicate Holds(s: System, i: InvocationId, status: InvocationStatus) { i in s.invocations && s.invocations[i] == status }

  lemma {:induction false} OutcomeStays(s: System, events: seq<Event>, i: InvocationId)
    requires FreshSaves(s) && i in s.invocations && Terminal(s.invocations[i])
    requires EvictInvocation(i) !in events
    ensures Holds(Run(s, events), i, s.invocations[i])
    decreases |events|
  {
    if events != [] {
      var next := Apply(s, events[0]);
      ApplyKeepsOutcomes(s, events[0]);
      assert events[0] in events;
      assert Holds(next, i, s.invocations[i]);
      assert forall e :: e in events[1..] ==> e in events;
      OutcomeStays(next, events[1..], i);
    }
  }

  lemma {:induction false} ReachableFreshSaves(s: System, events: seq<Event>)
    requires FreshSaves(s)
    ensures FreshSaves(Run(s, events))
    decreases |events|
  {
    if events != [] {
      ApplyKeepsOutcomes(s, events[0]);
      ReachableFreshSaves(Apply(s, events[0]), events[1..]);
    }
  }

  /** Once any run has recorded a terminal outcome, every continuation has that outcome, unless it evicts the record. */
  lemma OutcomeIsFinal(events: seq<Event>, later: seq<Event>, i: InvocationId)
    requires var s := Run(INITIAL, events); i in s.invocations && Terminal(s.invocations[i])
    requires EvictInvocation(i) !in later
    ensures var s := Run(INITIAL, events); Holds(Run(s, later), i, s.invocations[i])
  {
    ReachableFreshSaves(INITIAL, events);
    OutcomeStays(Run(INITIAL, events), later, i);
  }
}
