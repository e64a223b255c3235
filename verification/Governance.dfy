/**
 Confirmations, invocations and actors of governed actions (src/governance-registry.ts:251-305,
 src/governance.ts:252-295).
 */
module Governance {
  import opened Common

  type PrincipalId = nat
  type PersonaId = nat
  type ConfirmationId = nat
  type InvocationId = nat

  /** The canonical text of the arguments stands for its digest, which is assumed free of collisions. */
  type Digest = string

  /** The six fields a confirmation is bound to. */
  datatype Action = Action(
    requester: PrincipalId, persona: PersonaId, actor: PrincipalId, capability: string, target: string, digest: Digest)

  const COMMENT := "github.issue.comment"

  /** `confirmation: "always"` among the configured capabilities */
  predicate NeedsConfirmation(capability: string) { capability == COMMENT }

  const CONFIRMATION_TTL: int := 10 * 60 * 1000
  const GRANT_TTL: int := 5 * 60 * 1000

  datatype ConfirmationStatus = Pending | Approved | Denied | Used | Expired

  datatype Confirmation = Confirmation(action: Action, status: ConfirmationStatus, expiresAt: Time)

  datatype Refusal = NotFound | NotRequester | NotPending | TooLate | NotApproved | Mismatch | Final

  function Decide(c: Confirmation, decider: PrincipalId, approve: bool, now: Time): Result<Confirmation, Refusal> {
    if c.action.requester != decider then Failure(NotRequester)
    else if !c.status.Pending? then Failure(NotPending)
    else if c.expiresAt <= now then Failure(TooLate)
    else Success(c.(status := if approve then Approved else Denied))
  }

  function Use(c: Confirmation, action: Action, now: Time): Result<Confirmation, Refusal> {
    if !c.status.Approved? || c.expiresAt <= now then Failure(NotApproved)
    else if c.action != action then Failure(Mismatch)
    else Success(c.(status := Used))
  }

  datatype InvocationStatus = Issued | Running | Succeeded | Failed | InvocationExpired

  predicate Terminal(status: InvocationStatus) { !status.Issued? && !status.Running? }

  /** `updateInvocation` with a new status */
  function Advance(current: InvocationStatus, next: InvocationStatus): Result<InvocationStatus, Refusal> {
    if Terminal(current) then (if next == current then Success(current) else Failure(Final)) else Success(next)
  }

  class GovernanceRegistry {
    var confirmations: map<ConfirmationId, Confirmation>
    var invocations: map<InvocationId, InvocationStatus>
    const transactional: bool

    constructor (transactional: bool)
      ensures confirmations == map[] && invocations == map[] && this.transactional == transactional
    {
      confirmations, invocations := map[], map[];
      this.transactional := transactional;
    }

    method CreateConfirmation(id: ConfirmationId, action: Action, now: Time)
      requires id !in confirmations
      modifies this`confirmations
      ensures confirmations == old(confirmations)[id := Confirmation(action, Pending, now + CONFIRMATION_TTL)]
    {
      confirmations := confirmations[id := Confirmation(action, Pending, now + CONFIRMATION_TTL)];
    }

    /** A decision that comes too late is written as `expired` and then thrown away by the transaction it fails. */
    method DecideConfirmation(id: ConfirmationId, decider: PrincipalId, approve: bool, now: Time)
      returns (r: Result<Confirmation, Refusal>)
      modifies this`confirmations
      ensures id !in old(confirmations) ==> r == Failure(NotFound)
      ensures id in old(confirmations) ==> r == Decide(old(confirmations)[id], decider, approve, now)
      ensures r.Success? ==> confirmations == old(confirmations)[id := r.value]
      ensures r.Failure? ==>
                confirmations ==
                if r.error.TooLate? && !transactional && id in old(confirmations)
                then old(confirmations)[id := old(confirmations)[id].(status := Expired)] else old(confirmations)
    {
      if id !in confirmations {
        return Failure(NotFound);
      }
      var saved := confirmations;
      var current := confirmations[id];
      if current.action.requester != decider {
        return Failure(NotRequester);
      }
      if !current.status.Pending? {
        return Failure(NotPending);
      }
      if current.expiresAt <= now {
        confirmations := confirmations[id := current.(status := Expired)];
        if transactional {
          confirmations := saved;
        }
        return Failure(TooLate);
      }
      var next := current.(status := if approve then Approved else Denied);
      confirmations := confirmations[id := next];
      r := Success(next);
    }

    method UseConfirmation(id: ConfirmationId, expected: Action, now: Time) returns (r: Result<Confirmation, Refusal>)
      modifies this`confirmations
      ensures id !in old(confirmations) ==> r == Failure(NotFound)
      ensures id in old(confirmations) ==> r == Use(old(confirmations)[id], expected, now)
      ensures confirmations == if r.Success? then old(confirmations)[id := r.value] else old(confirmations)
    {
      if id !in confirmations {
        return Failure(NotFound);
      }
      var current := confirmations[id];
      if !current.status.Approved? || current.expiresAt <= now {
        return Failure(NotApproved);
      }
      if current.action != expected {
        return Failure(Mismatch);
      }
      confirmations := confirmations[id := current.(status := Used)];
      r := Success(confirmations[id]);
    }

    method SaveInvocation(id: InvocationId)
      modifies this`invocations
      ensures invocations == old(invocations)[id := Issued]
    {
      invocations := invocations[id := Issued];
    }

    method UpdateInvocation(id: InvocationId, status: InvocationStatus) returns (r: Result<InvocationStatus, Refusal>)
      modifies this`invocations
      ensures id !in old(invocations) ==> r == Failure(NotFound)
      ensures id in old(invocations) ==> r == Advance(old(invocations)[id], status)
      ensures invocations == if r.Success? then old(invocations)[id := r.value] else old(invocations)
      ensures id in old(invocations) && Terminal(old(invocations)[id]) ==> invocations == old(invocations)
    {
      if id !in invocations {
        return Failure(NotFound);
      }
      if Terminal(invocations[id]) {
        if status != invocations[id] {
          return Failure(Final);
        }
        assert invocations[id := invocations[id]] == invocations;
        return Success(invocations[id]);
      }
      invocations := invocations[id := status];
      r := Success(status);
    }
  }

  // ---------- Who acts ----------

  datatype ActorMode = Invoker | Service | InvokerWithFallback
  datatype PersonaKind = Personal | Shared | Profile

  datatype Principal = Principal(id: PrincipalId, isService: bool)
  datatype Connection = Connection(id: nat, principal: PrincipalId, provider: string, active: bool, scopes: set<string>)
  datatype Capability = Capability(id: string, provider: string, allowed: set<ActorMode>, scopes: set<string>)
  datatype Persona = Persona(
    enabled: bool, kind: PersonaKind, mode: ActorMode, service: Option<PrincipalId>, capabilities: set<string>)

  datatype Actor = Actor(principal: Principal, connection: Connection, fallback: bool)

  predicate Compatible(c: Connection, principal: PrincipalId, capability: Capability) {
    c.active && c.principal == principal && c.provider == capability.provider && capability.scopes <= c.scopes
  }

  /** The first compatible connection is at `i`. */
  predicate FirstAt(connections: seq<Connection>, i: nat, principal: PrincipalId, capability: Capability) {
    && i < |connections| && Compatible(connections[i], principal, capability)
    && forall j :: 0 <= j < i ==> !Compatible(connections[j], principal, capability)
  }

  /** `findConnection` takes the first compatible connection. */
  function FindConnection(connections: seq<Connection>, principal: PrincipalId, capability: Capability): (r: Option<Connection>)
    ensures r.Some? ==> exists i: nat :: FirstAt(connections, i, principal, capability) && r.value == connections[i]
    ensures r.None? ==> forall c :: c in connections ==> !Compatible(c, principal, capability)
  {
    if connections == [] then None
    else if Compatible(connections[0], principal, capability) then
      assert FirstAt(connections, 0, principal, capability);
      Some(connections[0])
    else
      assert forall i: nat :: FirstAt(connections[1..], i, principal, capability) ==>
                                FirstAt(connections, i + 1, principal, capability);
      FindConnection(connections[1..], principal, capability)
  }

  function FindPrincipal(principals: seq<Principal>, id: Option<PrincipalId>): (r: Option<Principal>)
    ensures r.Some? ==> r.value in principals && id == Some(r.value.id)
    ensures r.None? ==> forall p :: p in principals ==> id != Some(p.id)
  {
    if principals == [] then None
    else if id == Some(principals[0].id) then Some(principals[0])
    else FindPrincipal(principals[1..], id)
  }

  /** `resolveInvocationActor` */
  function ResolveActor(
    requester: Principal, persona: Persona, capability: Capability, principals: seq<Principal>,
    connections: seq<Connection>): Result<Actor, string>
  {
    if !persona.enabled then Failure("persona is disabled")
    else if capability.id !in persona.capabilities then Failure("persona is not allowed to use this capability")
    else if persona.mode !in capability.allowed then Failure("persona actor mode is not allowed for this capability")
    else if persona.kind.Profile? && !persona.mode.Invoker? then Failure("profile assistants must act as the requester")
    else
      var own := FindConnection(connections, requester.id, capability);
      if persona.mode.Invoker? then
        if own.None? then Failure("requester has no compatible OAuth connection")
        else Success(Actor(requester, own.value, false))
      else
        var service := FindPrincipal(principals, persona.service);
        if service.None? || !service.value.isService then Failure("persona service actor is unavailable")
        else
          var shared := FindConnection(connections, service.value.id, capability);
          if persona.mode.Service? then
            if shared.None? then Failure("service actor has no compatible OAuth connection")
            else Success(Actor(service.value, shared.value, false))
          else if own.Some? then Success(Actor(requester, own.value, false))
          else if shared.None? then Failure("neither requester nor service actor has a compatible OAuth connection")
          else Success(Actor(service.value, shared.value, true))
  }

  ghost predicate Connected(connections: seq<Connection>, principal: PrincipalId, capability: Capability) {
    exists c :: c in connections && Compatible(c, principal, capability)
  }

  /**
   The actor is the requester or the persona's service principal, acts with its own active connection that covers
   the capability, and stands in for a requester only where the persona allows it and the requester has none.
   */
  lemma ResolvedActorIsAuthorised(
    requester: Principal, persona: Persona, capability: Capability, principals: seq<Principal>,
    connections: seq<Connection>)
    ensures var r := ResolveActor(requester, persona, capability, principals, connections);
            r.Success? ==>
              && persona.enabled && capability.id in persona.capabilities && persona.mode in capability.allowed
              && r.value.connection in connections
              && Compatible(r.value.connection, r.value.principal.id, capability)
              && (r.value.principal == requester ||
                  (r.value.principal.isService && persona.service == Some(r.value.principal.id) && !persona.kind.Profile?))
              && (persona.mode.Invoker? ==> r.value.principal == requester)
              && (r.value.fallback <==> persona.mode.InvokerWithFallback? && !Connected(connections, requester.id, capability))
              && (r.value.fallback ==> r.value.principal.isService)
  {
  }

  /** A fallback persona with a service principal resolves whenever either side is connected, the requester first. */
  lemma FallbackPrefersRequester(
    requester: Principal, persona: Persona, capability: Capability, principals: seq<Principal>,
    connections: seq<Connection>)
    requires persona.enabled && capability.id in persona.capabilities && persona.mode in capability.allowed
    requires persona.mode.InvokerWithFallback? && !persona.kind.Profile?
    requires FindPrincipal(principals, persona.service).Some? && FindPrincipal(principals, persona.service).value.isService
    ensures var r := ResolveActor(requester, persona, capability, principals, connections);
            && (r.Success? <==> Connected(connections, requester.id, capability) ||
                                Connected(connections, persona.service.value, capability))
            && (Connected(connections, requester.id, capability) ==> r.value.principal == requester)
  {
  }
}
