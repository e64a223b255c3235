/**
 Every run of one claw: operators and policies write its desired state, any number of reconciliations and pairing
 approvals (in any number of processes) hold snapshots of its record and later write what they learnt, each write
 guarded by the revision of its snapshot (src/registry.ts:437-463).
 */
module FleetRuns {
  import opened Common
  import opened ClawRecords
  import opened FleetRegistry
  import opened Reconciler

  type FlightId = nat

  datatype Flight =
    | Reconciling(claw: ClawRecord)
    | Announced(claw: ClawRecord, route: Option<Route>)
    | Approving(claw: ClawRecord)

  /** What has happened: committed writes, and calls of `provider.remove`. */
  datatype Entry = Committed(note: Note) | RemoveCalled

  datatype Control = Control(record: ClawRecord, flights: map<FlightId, Flight>, history: seq<Entry>)

  datatype Writer =
    | Update(patch: Patch, targets: Targets)
    | Policy(patch: Patch)
    | Enable(enabled: bool)
    | Rotate
    | Removal(confirmation: string, now: Time)

  datatype Event =
    | WriteDesired(writer: Writer)
    | Read(flight: FlightId)
    | ReadForPairing(flight: FlightId)
    | CallRemove(flight: FlightId)
    | Finish(flight: FlightId, answers: Answers)
    | FinishPairing(flight: FlightId, access: nat)

  function Written(r: ClawRecord, w: Writer): ClawRecord {
    var next :=
      match w
      case Update(patch, targets) => UpdateStep(r, patch, targets)
      case Policy(patch) => if Frozen(r) then Failure("frozen") else UpdateRecord(r, patch)
      case Enable(enabled) => EnableStep(r, enabled)
      case Rotate => RotateStep(r)
      case Removal(confirmation, now) => RemovalStep(r, confirmation, now);
    if next.Success? then next.value else r
  }

  predicate CallsRemove(flight: Flight) {
    && flight.Reconciling? && !flight.claw.observed.phase.Deleted?
    && flight.claw.observed.deletion.Some? && flight.claw.observed.deletion.value.stage in {ReleaseStage, ConfirmStage}
  }

  /** What the flight wants to write once it has its answers. */
  function Decide(flight: Flight, a: Answers, quiet: Time): Decision {
    match flight
    case Reconciling(claw) => Plan(claw, a, quiet)
    case Announced(claw, route) => ProvisionPlan(claw, route, a)
    case Approving(_) => NoWrite
  }

  /** A compare-and-swap write; a conflicting one is dropped. */
  function Commit(s: Control, expected: nat, observed: Observed, note: Note): Control {
    var next := WriteStep(s.record, observed, Some(expected));
    if next.Failure? then s else s.(record := next.value, history := s.history + [Committed(note)])
  }

  function FinishStep(s: Control, f: FlightId, flight: Flight, decision: Decision, a: Answers): Control {
    var landed := s.(flights := s.flights - {f});
    match decision
    case NoWrite => landed
    case Write(observed, note) => Commit(landed, flight.claw.revision, observed, note)
    case Announce(observed) =>
      var next := Commit(landed, flight.claw.revision, observed, Nothing);
      if next.record == s.record then next
      else
        next.(flights := next.flights[f := Announced(next.record, RouteOf(flight.claw.desired, a))])
  }

  function Apply(s: Control, e: Event, quiet: Time): Control {
    match e
    case WriteDesired(w) => s.(record := Written(s.record, w))
    case Read(f) => if f in s.flights then s else s.(flights := s.flights[f := Reconciling(s.record)])
    case ReadForPairing(f) => if f in s.flights then s else s.(flights := s.flights[f := Approving(s.record)])
    case CallRemove(f) =>
      if f in s.flights && CallsRemove(s.flights[f]) then s.(history := s.history + [RemoveCalled]) else s
    case Finish(f, a) =>
      if f in s.flights && !s.flights[f].Approving?
      then FinishStep(s, f, s.flights[f], Decide(s.flights[f], a, quiet), a) else s
    case FinishPairing(f, access) =>
      if f in s.flights && s.flights[f].Approving?
      then
        var claw := s.flights[f].claw;
        Commit(s.(flights := s.flights - {f}), claw.revision, claw.observed.(userAccess := Some(access)), Nothing)
      else s
  }

  predicate Initial(s: Control) {
    s.record.observed == FIRST_OBSERVED && s.flights == map[] && s.history == []
  }

  /** The answer of the provider that a live claw's write rests on. */
  predicate Inspects(claw: ClawRecord, a: Answers) {
    && claw.observed.deletion.None? && claw.desired.enabled && !claw.observed.phase.Deleted?
    && claw.observed.lifecycle.Some? && (Routed(claw.desired) ==> a.route.Answered?)
    && a.inspect.Answered? && !a.inspect.value.absent
  }

  function RouteOf(d: Desired, a: Answers): Option<Route> {
    if Routed(d) && a.route.Answered? then Some(a.route.value) else None
  }

  /** What the convergence of a claw rests on; nothing else in this module needs it. */
  predicate HonestFlight(flight: Flight, a: Answers) {
    match flight
    case Reconciling(claw) =>
      Inspects(claw, a) ==> HonestInspection(claw, RouteOf(claw.desired, a), a.inspect.value)
    case Announced(_, route) => a.provision.Answered? ==> HonestProvision(route, a.provision.value)
    case Approving(_) => true
  }

  predicate HonestEvent(s: Control, e: Event) {
    e.Finish? && e.flight in s.flights && s.flights[e.flight].claw == s.record ==>
      HonestFlight(s.flights[e.flight], e.answers)
  }

  /** All along a run, the answers behind the writes that take effect are honest. */
  predicate AllHonest(s: Control, events: seq<Event>, quiet: Time)
    decreases |events|
  {
    events == [] || (HonestEvent(s, events[0]) && AllHonest(Apply(s, events[0], quiet), events[1..], quiet))
  }

  function Run(s: Control, events: seq<Event>, quiet: Time): Control
    decreases |events|
  {
    if events == [] then s else Run(Apply(s, events[0], quiet), events[1..], quiet)
  }

  // ---------- Snapshots ----------

  /** A snapshot is out of date, which its revision shows, or it is the record. */
  predicate Current(claw: ClawRecord, record: ClawRecord) {
    claw.revision < record.revision || claw == record
  }

  ghost predicate FlightsOk(s: Control) {
    forall f :: f in s.flights ==>
                  && Current(s.flights[f].claw, s.record)
                  && (s.flights[f].Announced? ==>
                        && s.flights[f].claw.observed.deletion.None? && s.flights[f].claw.desired.enabled
                        && !s.flights[f].claw.observed.phase.Deleted?
                        && (Routed(s.flights[f].claw.desired) ==> s.flights[f].route.Some?))
  }

  // ---------- Evidence ----------

  predicate NoUndrained(h: seq<Entry>, from: nat) {
    forall k :: from <= k < |h| ==> h[k] != Committed(Undrained)
  }

  predicate IsDrained(e: Entry) { e.Committed? && e.note.Drained? }

  /** A drained observation stamped `at`, and no undrained one since. */
  ghost predicate DrainedSince(h: seq<Entry>, at: Time) {
    exists i :: 0 <= i < |h| && IsDrained(h[i]) && h[i].note.observedAt == at && NoUndrained(h, i)
  }

  ghost predicate ClearedBy(h: seq<Entry>, i: nat, j: nat, quiet: Time) {
    && i < j < |h| && IsDrained(h[i]) && IsDrained(h[j])
    && h[j].note.decidedAt - h[i].note.observedAt >= quiet && NoUndrained(h, i)
  }

  /** Two drained observations a quiet period apart, and nothing undrained since the first. */
  ghost predicate Cleared(h: seq<Entry>, quiet: Time) { exists i, j :: ClearedBy(h, i, j, quiet) }

  ghost predicate RemovalsCleared(h: seq<Entry>, quiet: Time) {
    forall k :: 0 <= k < |h| && h[k].RemoveCalled? ==> Cleared(h[..k], quiet)
  }

  ghost predicate AbsentThenRevoked(h: seq<Entry>) {
    exists i, j :: 0 <= i < j < |h| && h[i] == Committed(ProviderAbsent) && h[j] == Committed(ControlRevoked)
  }

  /** Sound evidence for a desired state. */
  predicate Sound(d: Desired, e: Evidence) {
    && d.enabled && e.phase.Ready? && e.health.Healthy?
    && (Routed(d) ==>
          && e.route.Some? && e.route.value.routerHealthy && e.route.value.catalogReady && e.probes.Some?
          && e.probes.value.liveInference && e.probes.value.configuredModel == e.route.value.model
          && e.probes.value.resolvedModel == Some(e.route.value.model))
  }

  predicate Proves(entry: Entry, d: Desired) {
    entry.Committed? && entry.note.Proof? && entry.note.desired == d && Sound(d, entry.note.evidence)
  }

  /** Sound evidence has been gathered for exactly this desired state. */
  ghost predicate Proven(d: Desired, h: seq<Entry>) { exists i :: 0 <= i < |h| && Proves(h[i], d) }

  // ---------- The invariant ----------

  ghost predicate DeletionOk(r: ClawRecord, h: seq<Entry>, quiet: Time) {
    && (r.observed.deletion.Some? ==>
          var d := r.observed.deletion.value;
          && r.observed.phase in {Deleting, Attention} && !r.desired.enabled
          && (d.stage.DisableStage? ==> d.drainedAt.None?)
          && (d.stage.DrainStage? && d.drainedAt.Some? ==> DrainedSince(h, d.drainedAt.value))
          && (d.stage in {ReleaseStage, ConfirmStage} ==> Cleared(h, quiet))
          && (d.stage.RevokeStage? ==> Committed(ProviderAbsent) in h))
    && (r.observed.phase.Deleting? ==> r.observed.deletion.Some?)
    && (r.observed.phase.Deleted? ==> AbsentThenRevoked(h))
  }

  /** What the observed phase of a claw promises at its desired generation. */
  ghost predicate Convergent(r: ClawRecord, h: seq<Entry>) {
    r.observed.generation == r.desired.generation ==>
      && (r.observed.phase.Ready? ==>
            r.desired.enabled && (Routed(r.desired) ==> Verified(r.observed.inference)) && Proven(r.desired, h))
      && (r.observed.phase.Disabled? ==> !r.desired.enabled)
  }

  predicate PastDrain(o: Observed) {
    o.phase.Deleted? || (o.deletion.Some? && o.deletion.value.stage in {ReleaseStage, ConfirmStage, RevokeStage})
  }

  /** Also a reconciliation with an outdated snapshot calls `provider.remove` only once the drain is over. */
  ghost predicate CallsOk(s: Control, quiet: Time) {
    forall f :: f in s.flights && CallsRemove(s.flights[f]) ==>
                  PastDrain(s.record.observed) && Cleared(s.history, quiet)
  }

  ghost predicate Inv(s: Control, quiet: Time) {
    && FlightsOk(s) && CallsOk(s, quiet) && DeletionOk(s.record, s.history, quiet)
    && RemovalsCleared(s.history, quiet) && s.record.observed.generation <= s.record.desired.generation
  }

  // ---------- History only grows ----------

  lemma DrainedSinceGrows(h: seq<Entry>, at: Time, e: Entry)
    requires DrainedSince(h, at) && e != Committed(Undrained)
    ensures DrainedSince(h + [e], at)
  {
    var i :| 0 <= i < |h| && IsDrained(h[i]) && h[i].note.observedAt == at && NoUndrained(h, i);
    assert (h + [e])[i] == h[i] && NoUndrained(h + [e], i);
  }

  lemma ClearedGrows(h: seq<Entry>, quiet: Time, e: Entry)
    requires Cleared(h, quiet) && e != Committed(Undrained)
    ensures Cleared(h + [e], quiet)
  {
    var i, j :| ClearedBy(h, i, j, quiet);
    assert ClearedBy(h + [e], i, j, quiet);
  }

  /** A second drained observation, decided a quiet period after the first one. */
  lemma SecondDrainClears(h: seq<Entry>, first: Time, second: Entry, quiet: Time)
    requires DrainedSince(h, first) && IsDrained(second) && second.note.decidedAt - first >= quiet
    ensures Cleared(h + [second], quiet)
  {
    var i :| 0 <= i < |h| && IsDrained(h[i]) && h[i].note.observedAt == first && NoUndrained(h, i);
    assert (h + [second])[i] == h[i] && (h + [second])[|h|] == second;
    assert ClearedBy(h + [second], i, |h|, quiet);
  }

  lemma RemovalsStayCleared(h: seq<Entry>, quiet: Time, e: Entry)
    requires RemovalsCleared(h, quiet) && (e.RemoveCalled? ==> Cleared(h, quiet))
    ensures RemovalsCleared(h + [e], quiet)
  {
    forall k | 0 <= k < |h + [e]| && (h + [e])[k].RemoveCalled?
      ensures Cleared((h + [e])[..k], quiet)
    {
      assert (h + [e])[..k] == h[..k];
      if k == |h| {
        assert h[..k] == h;
      }
    }
  }

  lemma HistoryGrows(h: seq<Entry>, e: Entry)
    ensures AbsentThenRevoked(h) ==> AbsentThenRevoked(h + [e])
    ensures Committed(ProviderAbsent) in h ==> Committed(ProviderAbsent) in h + [e]
    ensures Committed(ProviderAbsent) in h && e == Committed(ControlRevoked) ==> AbsentThenRevoked(h + [e])
  {
    var g := h + [e];
    assert forall i :: 0 <= i < |h| ==> g[i] == h[i];
    assert g[|h|] == e;
    if AbsentThenRevoked(h) {
      var i, j :| 0 <= i < j < |h| && h[i] == Committed(ProviderAbsent) && h[j] == Committed(ControlRevoked);
      assert g[i] == Committed(ProviderAbsent) && g[j] == Committed(ControlRevoked);
    }
    if Committed(ProviderAbsent) in h && e == Committed(ControlRevoked) {
      var i :| 0 <= i < |h| && h[i] == Committed(ProviderAbsent);
      assert g[i] == Committed(ProviderAbsent) && g[|h|] == Committed(ControlRevoked);
    }
  }

  lemma ProofsStay(h: seq<Entry>, e: Entry, d: Desired)
    ensures Proven(d, h + [e]) <==> Proven(d, h) || Proves(e, d)
  {
    var g := h + [e];
    assert forall i :: 0 <= i < |h| ==> g[i] == h[i];
    assert g[|h|] == e;
  }

  // ---------- What each decision may write ----------

  function Rank(stage: Stage): nat {
    match stage case DisableStage => 0 case DrainStage => 1 case ReleaseStage => 2 case ConfirmStage => 3 case RevokeStage => 4
  }

  /** The moves of the deletion protocol, with what each has observed. */
  predicate StageMove(d: Deletion, next: Deletion, note: Note, quiet: Time) {
    match next.stage
    case DisableStage => d.stage.DisableStage? && note.Nothing? && next.drainedAt == d.drainedAt
    case DrainStage =>
      || (d.stage in {DisableStage, DrainStage} && note.Nothing? && next.drainedAt == d.drainedAt)
      || (d.stage.DrainStage? && note.Undrained? && next.drainedAt.None?)
      || (d.stage.DrainStage? && note.Drained? &&
          next.drainedAt == if d.drainedAt.Some? then d.drainedAt else Some(note.observedAt))
    case ReleaseStage =>
      || (d.stage.ReleaseStage? && note.Nothing?)
      || (d.stage.DrainStage? && note.Drained? && d.drainedAt.Some? && note.decidedAt - d.drainedAt.value >= quiet)
    case ConfirmStage => d.stage in {ReleaseStage, ConfirmStage} && note.Nothing?
    case RevokeStage => note.ProviderAbsent? || (d.stage.RevokeStage? && note.Nothing?)
  }

  predicate DeletionMove(claw: ClawRecord, o: Observed, note: Note, quiet: Time)
    requires claw.observed.deletion.Some?
  {
    if o.deletion.None? then
      && o.phase.Deleted? && note.ControlRevoked? && claw.observed.deletion.value.stage.RevokeStage?
      && o.generation == claw.desired.generation
    else
      && o.phase in {Deleting, Attention} && o.generation == claw.observed.generation
      && o.deletion.value.requestedAt == claw.observed.deletion.value.requestedAt
      && Rank(claw.observed.deletion.value.stage) <= Rank(o.deletion.value.stage)
      && StageMove(claw.observed.deletion.value, o.deletion.value, note, quiet)
  }

  lemma DeletionDecides(claw: ClawRecord, a: Answers, quiet: Time)
    requires claw.observed.deletion.Some?
    ensures DeletionPlan(claw, a, quiet).Write?
    ensures DeletionMove(claw, DeletionPlan(claw, a, quiet).observed, DeletionPlan(claw, a, quiet).note, quiet)
  {
  }

  lemma PlanOfDeletion(claw: ClawRecord, a: Answers, quiet: Time)
    requires claw.observed.deletion.Some? && !claw.observed.phase.Deleted?
    ensures Plan(claw, a, quiet).Write?
    ensures DeletionMove(claw, Plan(claw, a, quiet).observed, Plan(claw, a, quiet).note, quiet)
  {
    if !Routed(claw.desired) || a.route.Answered? {
      DeletionDecides(WithRoute(claw, if Routed(claw.desired) then Some(a.route.value) else None), a, quiet);
    }
  }

  /** What may be written about a claw that is not being removed, whatever the provider answers. */
  predicate LiveMove(claw: ClawRecord, o: Observed, note: Note) {
    && o.deletion.None? && !o.phase.Deleting? && !o.phase.Deleted?
    && (note.Nothing? || note.Proof?)
    && (o.generation <= claw.observed.generation || o.generation == claw.desired.generation)
  }

  predicate Alive(claw: ClawRecord) {
    claw.observed.deletion.None? && !claw.observed.phase.Deleting? && !claw.observed.phase.Deleted?
  }

  lemma PlanOfLife(claw: ClawRecord, a: Answers, quiet: Time)
    requires Alive(claw)
    ensures var decision := Plan(claw, a, quiet);
            && !decision.NoWrite?
            && (decision.Write? ==> LiveMove(claw, decision.observed, decision.note))
            && (decision.Announce? ==> LiveMove(claw, decision.observed, Nothing) && claw.desired.enabled &&
                                       decision.observed.phase.Provisioning? &&
                                       (Routed(claw.desired) ==> a.route.Answered?))
  {
  }

  lemma PlanOfProvision(claw: ClawRecord, route: Option<Route>, a: Answers)
    ensures var decision := ProvisionPlan(claw, route, a);
            decision.Write? && (Alive(claw) ==> LiveMove(claw, decision.observed, decision.note))
  {
  }

  // ---------- Writers of the desired state ----------

  lemma WrittenShape(r: ClawRecord, w: Writer)
    ensures var next := Written(r, w);
            && (next == r ||
                (next.revision == r.revision + 1 && next.desired.generation == r.desired.generation + 1))
            && (r.observed.deletion.Some? || r.observed.phase.Deleted? ==> next == r)
            && (next.observed == r.observed ||
                (w.Removal? && !next.desired.enabled &&
                 next.observed ==
                 r.observed.(phase := Deleting, deletion := Some(Deletion(DisableStage, w.now, None, None)))))
  {
  }

  lemma WrittenKeepsInv(s: Control, w: Writer, quiet: Time)
    requires Inv(s, quiet)
    ensures Inv(s.(record := Written(s.record, w)), quiet)
    ensures Convergent(s.record, s.history) ==> Convergent(Written(s.record, w), s.history)
  {
    WrittenShape(s.record, w);
  }

  // ---------- Commits ----------

  lemma CommitKeepsCalls(s: Control, o: Observed, note: Note, quiet: Time)
    requires CallsOk(s, quiet)
    requires PastDrain(s.record.observed) ==> PastDrain(o) && !note.Undrained?
    ensures CallsOk(Commit(s, s.record.revision, o, note), quiet)
  {
    if Cleared(s.history, quiet) && !note.Undrained? {
      ClearedGrows(s.history, quiet, Committed(note));
    }
  }

  lemma CallKeepsInv(s: Control, quiet: Time)
    requires Inv(s, quiet) && exists f :: f in s.flights && CallsRemove(s.flights[f])
    ensures Inv(s.(history := s.history + [RemoveCalled]), quiet)
  {
    ClearedGrows(s.history, quiet, RemoveCalled);
    RemovalsStayCleared(s.history, quiet, RemoveCalled);
    HistoryGrows(s.history, RemoveCalled);
  }

  lemma DeletionCommitKeepsInv(s: Control, o: Observed, note: Note, quiet: Time)
    requires Inv(s, quiet) && s.record.observed.deletion.Some?
    requires DeletionMove(s.record, o, note, quiet)
    ensures Inv(Commit(s, s.record.revision, o, note), quiet)
  {
    var e := Committed(note);
    var d := s.record.observed.deletion.value;
    CommitKeepsCalls(s, o, note, quiet);
    HistoryGrows(s.history, e);
    RemovalsStayCleared(s.history, quiet, e);
    if o.deletion.Some? {
      var next := o.deletion.value;
      if next.stage.DrainStage? && next.drainedAt.Some? {
        if d.stage.DrainStage? && d.drainedAt.Some? {
          DrainedSinceGrows(s.history, d.drainedAt.value, e);
        } else if d.stage.DrainStage? {
          assert (s.history + [e])[|s.history|] == e;
          assert NoUndrained(s.history + [e], |s.history|);
        }
      }
      if next.stage in {ReleaseStage, ConfirmStage} {
        if d.stage.DrainStage? {
          SecondDrainClears(s.history, d.drainedAt.value, e, quiet);
        } else {
          ClearedGrows(s.history, quiet, e);
        }
      }
      assert e in s.history + [e];
    }
  }

  lemma LiveCommitKeepsInv(s: Control, o: Observed, note: Note, quiet: Time)
    requires Inv(s, quiet) && Alive(s.record)
    requires LiveMove(s.record, o, note)
    ensures Inv(Commit(s, s.record.revision, o, note), quiet)
  {
    var e := Committed(note);
    CommitKeepsCalls(s, o, note, quiet);
    HistoryGrows(s.history, e);
    RemovalsStayCleared(s.history, quiet, e);
  }

  /** A pairing approval changes nothing but the user's access. */
  lemma PairingCommitKeepsInv(s: Control, access: nat, quiet: Time)
    requires Inv(s, quiet)
    ensures Inv(Commit(s, s.record.revision, s.record.observed.(userAccess := Some(access)), Nothing), quiet)
  {
    var e := Committed(Nothing);
    var o := s.record.observed.(userAccess := Some(access));
    CommitKeepsCalls(s, o, Nothing, quiet);
    HistoryGrows(s.history, e);
    RemovalsStayCleared(s.history, quiet, e);
    if s.record.observed.deletion.Some? {
      var d := s.record.observed.deletion.value;
      if d.stage.DrainStage? && d.drainedAt.Some? {
        DrainedSinceGrows(s.history, d.drainedAt.value, e);
      }
      if d.stage in {ReleaseStage, ConfirmStage} {
        ClearedGrows(s.history, quiet, e);
      }
    }
  }

  lemma LandingKeepsInv(s: Control, f: FlightId, quiet: Time)
    requires Inv(s, quiet)
    ensures Inv(s.(flights := s.flights - {f}), quiet)
  {
  }

  lemma FinishKeepsInv(s: Control, f: FlightId, a: Answers, quiet: Time)
    requires Inv(s, quiet) && f in s.flights && !s.flights[f].Approving?
    ensures Inv(FinishStep(s, f, s.flights[f], Decide(s.flights[f], a, quiet), a), quiet)
  {
    var flight := s.flights[f];
    var claw := flight.claw;
    var decision := Decide(flight, a, quiet);
    var landed := s.(flights := s.flights - {f});
    LandingKeepsInv(s, f, quiet);
    assert Current(claw, s.record);
    if claw.revision == s.record.revision && !decision.NoWrite? {
      assert claw == s.record;
      if flight.Announced? {
        PlanOfProvision(claw, flight.route, a);
        LiveCommitKeepsInv(landed, decision.observed, decision.note, quiet);
      } else if claw.observed.deletion.Some? {
        PlanOfDeletion(claw, a, quiet);
        DeletionCommitKeepsInv(landed, decision.observed, decision.note, quiet);
      } else {
        PlanOfLife(claw, a, quiet);
        LiveCommitKeepsInv(landed, decision.observed, if decision.Write? then decision.note else Nothing, quiet);
      }
    }
  }

  lemma ApplyKeepsInv(s: Control, e: Event, quiet: Time)
    requires Inv(s, quiet)
    ensures Inv(Apply(s, e, quiet), quiet)
  {
    match e
    case WriteDesired(w) => WrittenKeepsInv(s, w, quiet);
    case Read(f) =>
    case ReadForPairing(f) =>
    case CallRemove(f) =>
      if f in s.flights && CallsRemove(s.flights[f]) {
        CallKeepsInv(s, quiet);
      }
    case Finish(f, a) =>
      if f in s.flights && !s.flights[f].Approving? {
        FinishKeepsInv(s, f, a, quiet);
      }
    case FinishPairing(f, access) =>
      if f in s.flights && s.flights[f].Approving? {
        LandingKeepsInv(s, f, quiet);
        assert Current(s.flights[f].claw, s.record);
        PairingCommitKeepsInv(s.(flights := s.flights - {f}), access, quiet);
      }
  }

  lemma {:induction false} RunKeepsInv(s: Control, events: seq<Event>, quiet: Time)
    requires Inv(s, quiet)
    ensures Inv(Run(s, events, quiet), quiet)
    decreases |events|
  {
    if events != [] {
      ApplyKeepsInv(s, events[0], quiet);
      RunKeepsInv(Apply(s, events[0], quiet), events[1..], quiet);
    }
  }

  // ---------- Main results ----------

  /**
   `provider.remove` is only ever called after two drained observations of which the second was judged at least the
   quiet period after the first, with no committed undrained observation in between or since.
   */
  lemma RemovalOnlyAfterQuietDrain(s: Control, events: seq<Event>, quiet: Time, k: nat)
    requires Initial(s)
    requires k < |Run(s, events, quiet).history| && Run(s, events, quiet).history[k].RemoveCalled?
    ensures var h := Run(s, events, quiet).history;
            exists i, j ::
              && 0 <= i < j < k && IsDrained(h[i]) && IsDrained(h[j])
              && h[j].note.decidedAt - h[i].note.observedAt >= quiet
              && forall n :: i <= n < k ==> h[n] != Committed(Undrained)
  {
    RunKeepsInv(s, events, quiet);
    var h := Run(s, events, quiet).history;
    assert Cleared(h[..k], quiet);
    var i: nat, j: nat :| ClearedBy(h[..k], i, j, quiet);
    assert h[..k][i] == h[i] && h[..k][j] == h[j];
    forall n | i <= n < k
      ensures h[n] != Committed(Undrained)
    {
      assert h[..k][n] == h[n];
    }
  }

  /** A claw is only deleted after its provider was seen absent and then its control link confirmed revoked. */
  lemma DeletedAfterAbsenceAndRevocation(s: Control, events: seq<Event>, quiet: Time)
    requires Initial(s) && Run(s, events, quiet).record.observed.phase.Deleted?
    ensures AbsentThenRevoked(Run(s, events, quiet).history)
  {
    RunKeepsInv(s, events, quiet);
  }

  /** What a requested removal keeps until the claw is deleted. */
  predicate StillDeleting(before: ClawRecord, after: ClawRecord) {
    && after.desired == before.desired && before.revision <= after.revision
    && (after.observed.phase.Deleted? ||
        (before.observed.deletion.Some? && after.observed.deletion.Some? &&
         after.observed.deletion.value.requestedAt == before.observed.deletion.value.requestedAt &&
         Rank(before.observed.deletion.value.stage) <= Rank(after.observed.deletion.value.stage)))
  }

  lemma ApplyKeepsDeletion(s: Control, e: Event, quiet: Time)
    requires Inv(s, quiet) && (s.record.observed.deletion.Some? || s.record.observed.phase.Deleted?)
    ensures StillDeleting(s.record, Apply(s, e, quiet).record)
  {
    match e
    case WriteDesired(w) => WrittenShape(s.record, w);
    case Finish(f, a) =>
      if f in s.flights && !s.flights[f].Approving? {
        assert Current(s.flights[f].claw, s.record);
        if s.flights[f].Reconciling? && s.flights[f].claw == s.record && !s.record.observed.phase.Deleted? {
          PlanOfDeletion(s.record, a, quiet);
        }
      }
    case FinishPairing(f, access) =>
      if f in s.flights && s.flights[f].Approving? {
        assert Current(s.flights[f].claw, s.record);
      }
    case Read(_) =>
    case ReadForPairing(_) =>
    case CallRemove(_) =>
  }

  /**
   Once removal is requested, the deletion marker survives every step of every run, errors included, its stage never
   falls and the desired state no longer changes, until the claw is deleted; and deleted is final.
   */
  lemma {:induction false} DeletionSurvives(s: Control, events: seq<Event>, quiet: Time)
    requires Inv(s, quiet)
    requires s.record.observed.deletion.Some? || s.record.observed.phase.Deleted?
    ensures StillDeleting(s.record, Run(s, events, quiet).record)
    decreases |events|
  {
    if events != [] {
      ApplyKeepsInv(s, events[0], quiet);
      ApplyKeepsDeletion(s, events[0], quiet);
      DeletionSurvives(Apply(s, events[0], quiet), events[1..], quiet);
    }
  }

  // ---------- Convergence ----------

  /** The observed generation never overtakes the desired one. */
  lemma GenerationNeverOvertakes(s: Control, events: seq<Event>, quiet: Time)
    requires Initial(s)
    ensures var r := Run(s, events, quiet).record; r.observed.generation <= r.desired.generation
  {
    RunKeepsInv(s, events, quiet);
  }

  /** Evidence for the current desired state is on record from an earlier time, and would still be good. */
  ghost predicate EarlierEvidence(s: Control, flight: Flight, a: Answers) {
    && Proven(s.record.desired, s.history)
    && match flight
       case Reconciling(claw) =>
         && Inspects(claw, a) && Or(a.inspect.value.phase, claw.observed.phase).Ready?
         && RouteProven(RouteOf(claw.desired, a), a.inspect.value.probes)
       case Announced(_, _) => true
       case Approving(_) => false
  }

  /** The record after a committed write */
  function Recorded(claw: ClawRecord, o: Observed): ClawRecord {
    claw.(revision := claw.revision + 1, observed := o)
  }

  /** An inspection keeps the convergence of a claw exactly if it is honest or earlier evidence stands in for it. */
  lemma InspectConverges(claw: ClawRecord, route: Option<Route>, a: Answers, h: seq<Entry>)
    requires claw.desired.enabled && a.inspect.Answered? && !a.inspect.value.absent
    requires Routed(claw.desired) <==> route.Some?
    requires Convergent(claw, h)
    ensures var decision := InspectPlan(WithRoute(claw, route), route, a);
            decision.Write? &&
            (Convergent(Recorded(claw, decision.observed), h + [Committed(decision.note)]) <==>
             HonestInspection(claw, route, a.inspect.value) ||
             (Proven(claw.desired, h) && Or(a.inspect.value.phase, claw.observed.phase).Ready? &&
              RouteProven(route, a.inspect.value.probes)))
  {
    ProofsStay(h, Committed(InspectPlan(WithRoute(claw, route), route, a).note), claw.desired);
  }

  lemma ProvisionConverges(claw: ClawRecord, route: Option<Route>, a: Answers, h: seq<Entry>)
    requires claw.desired.enabled && (Routed(claw.desired) ==> route.Some?)
    requires Convergent(claw, h)
    ensures var decision := ProvisionPlan(claw, route, a);
            decision.Write? &&
            (Convergent(Recorded(claw, decision.observed), h + [Committed(decision.note)]) <==>
             (a.provision.Answered? ==> HonestProvision(route, a.provision.value)) || Proven(claw.desired, h))
  {
    ProofsStay(h, Committed(ProvisionPlan(claw, route, a).note), claw.desired);
  }

  /** Writes that rest on no inspection leave no claw ready, and disabled only where it is to be. */
  lemma OtherWritesConverge(claw: ClawRecord, a: Answers, quiet: Time, h: seq<Entry>)
    requires Alive(claw) && !Inspects(claw, a)
    ensures var decision := Plan(claw, a, quiet);
            && (decision.Write? ==>
                  Convergent(Recorded(claw, decision.observed), h + [Committed(decision.note)]))
            && (decision.Announce? ==>
                  Convergent(Recorded(claw, decision.observed), h + [Committed(Nothing)]))
  {
  }

  lemma DeletionConverges(claw: ClawRecord, a: Answers, quiet: Time, h: seq<Entry>)
    requires claw.observed.deletion.Some? && !claw.observed.phase.Deleted?
    ensures var decision := Plan(claw, a, quiet);
            decision.Write? && Convergent(Recorded(claw, decision.observed), h)
  {
    PlanOfDeletion(claw, a, quiet);
  }

  /**
   A write that takes effect keeps the convergence of the claw exactly if the answers behind it are honest or
   earlier evidence for the same desired state stands in for them.
   */
  lemma SoundStepIff(s: Control, f: FlightId, a: Answers, quiet: Time)
    requires Inv(s, quiet) && Convergent(s.record, s.history)
    requires f in s.flights && s.flights[f].claw == s.record && !s.flights[f].Approving?
    ensures var next := Apply(s, Finish(f, a), quiet);
            Convergent(next.record, next.history) <==>
            HonestFlight(s.flights[f], a) || EarlierEvidence(s, s.flights[f], a)
  {
    var claw := s.record;
    if s.flights[f].Announced? {
      ProvisionConverges(claw, s.flights[f].route, a, s.history);
    } else if claw.observed.phase.Deleted? {
      assert Plan(claw, a, quiet).NoWrite?;
    } else if claw.observed.deletion.Some? {
      DeletionConverges(claw, a, quiet, s.history + [Committed(Plan(claw, a, quiet).note)]);
    } else if Inspects(claw, a) {
      InspectConverges(claw, RouteOf(claw.desired, a), a, s.history);
    } else {
      OtherWritesConverge(claw, a, quiet, s.history);
    }
  }

  lemma ApplyConverges(s: Control, e: Event, quiet: Time)
    requires Inv(s, quiet) && Convergent(s.record, s.history) && HonestEvent(s, e)
    ensures Convergent(Apply(s, e, quiet).record, Apply(s, e, quiet).history)
  {
    match e
    case WriteDesired(w) => WrittenKeepsInv(s, w, quiet);
    case Finish(f, a) =>
      if f in s.flights && !s.flights[f].Approving? {
        if s.flights[f].claw == s.record {
          SoundStepIff(s, f, a, quiet);
        } else {
          assert Current(s.flights[f].claw, s.record);
        }
      }
    case FinishPairing(f, access) =>
      if f in s.flights && s.flights[f].Approving? {
        assert Current(s.flights[f].claw, s.record);
        ProofsStay(s.history, Committed(Nothing), s.record.desired);
      }
    case CallRemove(_) => ProofsStay(s.history, RemoveCalled, s.record.desired);
    case Read(_) =>
    case ReadForPairing(_) =>
  }

  lemma {:induction false} RunConverges(s: Control, events: seq<Event>, quiet: Time)
    requires Inv(s, quiet) && Convergent(s.record, s.history) && AllHonest(s, events, quiet)
    ensures var now := Run(s, events, quiet); Convergent(now.record, now.history)
    decreases |events|
  {
    if events != [] {
      ApplyKeepsInv(s, events[0], quiet);
      ApplyConverges(s, events[0], quiet);
      RunConverges(Apply(s, events[0], quiet), events[1..], quiet);
    }
  }

  /**
   Along honest answers, in every reachable state: ready at equal generations means the evidence was gathered for
   exactly the current, enabled desired state, with a verified route when it is routed; disabled at equal generations
   means that the claw is to be disabled.
   */
  lemma ConvergenceIsSound(s: Control, events: seq<Event>, quiet: Time)
    requires Initial(s) && AllHonest(s, events, quiet)
    ensures var now := Run(s, events, quiet);
            var r := now.record;
            && r.observed.generation <= r.desired.generation
            && (r.observed.phase.Ready? && r.observed.generation == r.desired.generation ==>
                  && r.desired.enabled
                  && (Routed(r.desired) ==> Verified(r.observed.inference))
                  && exists i :: 0 <= i < |now.history| && now.history[i].Committed? && now.history[i].note.Proof? &&
                                 now.history[i].note.desired == r.desired &&
                                 Sound(r.desired, now.history[i].note.evidence))
            && (r.observed.phase.Disabled? && r.observed.generation == r.desired.generation ==> !r.desired.enabled)
  {
    RunKeepsInv(s, events, quiet);
    RunConverges(s, events, quiet);
    var now := Run(s, events, quiet);
    if now.record.observed.phase.Ready? && now.record.observed.generation == now.record.desired.generation {
      var i :| 0 <= i < |now.history| && Proves(now.history[i], now.record.desired);
      assert now.history[i].note.Proof?;
    }
  }

  // ---------- How far the results reach ----------

  /** The drain stage lets the provider be released under exactly these answers. */
  lemma ReleaseIff(claw: ClawRecord, a: Answers, quiet: Time)
    requires claw.observed.deletion.Some? && claw.observed.deletion.value.stage.DrainStage?
    ensures var decision := DeletionPlan(claw, a, quiet);
            (decision.Write? && decision.observed.deletion.Some? &&
             decision.observed.deletion.value.stage.ReleaseStage?) <==>
              && (a.inspect.WorkspaceFailed? || (a.inspect.Answered? && !a.inspect.value.absent))
              && a.drain == Answered(true) && claw.observed.deletion.value.drainedAt.Some?
              && a.clock.decidedAt - claw.observed.deletion.value.drainedAt.value >= quiet
  {
  }

  /** The quiet period is judged by a later clock reading, so the observations themselves may be closer. */
  lemma ObservationsMayBeCloser(claw: ClawRecord, a: Answers)
    requires claw.observed.deletion == Some(Deletion(DrainStage, 0, Some(0), Some(0)))
    requires a.inspect.WorkspaceFailed? && a.drain == Answered(true) && a.clock == Clock(4000, 4900, 5000)
    ensures DeletionPlan(claw, a, 5000).observed.deletion.value.stage.ReleaseStage?
    ensures a.clock.observedAt - claw.observed.deletion.value.drainedAt.value < 5000
  {
  }

  /**
   An inspection makes an outdated claw ready at its generation without proof exactly when it reports the policy as
   applied and leaves the phase ready without calling the workspace healthy.
   */
  lemma UnprovenReadyIff(claw: ClawRecord, route: Option<Route>, a: Answers)
    requires a.inspect.Answered? && !a.inspect.value.absent && claw.observed.generation < claw.desired.generation
    ensures var decision := InspectPlan(claw, route, a);
            var result := a.inspect.value;
            (decision.observed.phase.Ready? && decision.observed.generation == claw.desired.generation &&
             decision.note.Nothing?) <==>
              && result.configHash == Some(PolicyHash(claw.desired)) && Or(result.phase, claw.observed.phase).Ready?
              && (result.phase.None? || result.health != Some(Healthy))
  {
  }

  /** It leaves an outdated claw disabled at its enabled generation exactly when it leaves out the phase as well. */
  lemma StaleDisabledIff(claw: ClawRecord, route: Option<Route>, a: Answers)
    requires a.inspect.Answered? && !a.inspect.value.absent && claw.observed.generation < claw.desired.generation
    ensures var decision := InspectPlan(claw, route, a);
            (decision.Write? && decision.observed.phase.Disabled? &&
             decision.observed.generation == claw.desired.generation) <==>
              && a.inspect.value.configHash == Some(PolicyHash(claw.desired))
              && a.inspect.value.phase.None? && claw.observed.phase.Disabled?
  {
  }

  /** Provisioning makes a claw ready on unsound evidence exactly when it is called ready but not healthy. */
  lemma UnsoundProvisionIff(claw: ClawRecord, route: Option<Route>, a: Answers)
    requires claw.desired.enabled && (Routed(claw.desired) <==> route.Some?) && a.provision.Answered?
    ensures var decision := ProvisionPlan(claw, route, a);
            (decision.observed.phase.Ready? && decision.observed.generation == claw.desired.generation &&
             !(decision.note.Proof? && Sound(claw.desired, decision.note.evidence))) <==>
              && a.provision.value.phase.Ready? && a.provision.value.health.Unknown?
              && RouteProven(route, a.provision.value.probes)
  {
  }

  const SILENT := Inspection(false, false, None, None, None, None, None, None, None)

  /** Without the pairing of ready and healthy, a claw can be ready at its generation without any proof. */
  lemma ReadyWithoutHealthy(claw: ClawRecord, a: Answers, quiet: Time)
    requires claw.observed.deletion.None? && !claw.observed.phase.Deleted? && !Routed(claw.desired)
    requires claw.desired.enabled && claw.observed.lifecycle.Some?
    requires a.inspect == Answered(SILENT.(phase := Some(Ready), health := Some(Unknown),
                                   configHash := Some(PolicyHash(claw.desired))))
    ensures var decision := Plan(claw, a, quiet);
            decision.Write? && decision.observed.phase.Ready? && decision.note.Nothing? &&
            decision.observed.generation == claw.desired.generation
  {
  }

  /** Nor is a provider safe that leaves out the phase: an old `disabled` then stays, at an enabled generation. */
  lemma DisabledWhileEnabled(claw: ClawRecord, a: Answers, quiet: Time)
    requires claw.observed.phase.Disabled? && claw.observed.deletion.None? && !Routed(claw.desired)
    requires claw.desired.enabled && claw.observed.lifecycle.Some?
    requires a.inspect == Answered(SILENT.(configHash := Some(PolicyHash(claw.desired))))
    ensures var decision := Plan(claw, a, quiet);
            decision.Write? && decision.observed.phase.Disabled? &&
            decision.observed.generation == claw.desired.generation
  {
  }
}
