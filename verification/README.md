# Crabhelm control-plane verification

A Dafny model of the parts of Crabhelm in which several writers race, or in which a value must survive a round trip,
with proofs over all inputs and all runs.

- **Per-claw coordinator.** `CoordinatorTables` gives the rows and every statement as a conditional update.
  `CoordinatorRuns` interleaves any number of instances statement by statement; `RefreshRotation` does the same for
  token refresh. `ClawCoordinator`, `CoordinatorEffects`, `JobSelection` and `CoordinatorDirectory` are one instance
  at work: claims, completions, deliveries, the sweep and the fleet sweep. `SocketRuns` are the runs of
  the in-memory socket side and `RuntimeSockets` performs them; `DeliveryRuns` and `WorkerDelivery` do the same for
  the Durable Object sibling's reply delivery.
- **Fleet.** `ClawRecords` and `PolicyTemplates` are the records, their normal form and managed policies;
  `FleetRegistry` is the registry. `Reconciler` says what one reconciliation decides, `FleetReconciler` performs it
  on the registry, and `FleetRuns` lets writers, reconciliations and pairing approvals race.
- **Governed invocations.** `Governance` and `GovernanceController` are the registry and the two request handlers;
  `GovernedRuns` interleaves any number of requests with the coordinator tables.
- **Child configuration.** `ManagedConfig` applies and reads managed settings in an arbitrary tree, `ChildConfig` adds
  compare-and-swap, status and ingress, and `ChildHost` performs the edits in place.
- **Stores, printing, discovery.** `BoundedStores`, `CanonicalJson`, `MemberDiscovery`.

Objects whose methods update their fields are classes, specified by functions on values; what is promised of a run is
proved about those functions. `dafny verify dfyconfig.toml` checks the project.

Where the code does not meet a property as one would first state it, the model follows the code, a lemma shows a
failing case, and an equivalence over all inputs says when it holds:

- `TwoPostsInFlight`: `SecondPostIffLeaseExpired`
- `TwoInstancesOfferTwice`: `OfferKeepsOneOfferIff`
- `RemovalOvertaken`: `RevivableIff`, `RemovalHoldsIff`
- `ObservationsMayBeCloser`: `ReleaseIff`
- `ReadyWithoutHealthy`, `DisabledWhileEnabled`: `SoundStepIff`, `UnprovenReadyIff`, `StaleDisabledIff`,
  `UnsoundProvisionIff`
- `LongProviderIsStuck`: `NormalFormIsFixpoint`
- a value that reads back changed: `RoundTripIff`
- `SecondDisableIsIgnored`, `EditedChannelStaysOn`: `DisabledChannelsAreOff`, `DisabledRunIsOffIff`
- a channel that an enable does not restore: `IngressUndoesItselfIff`
- `LastRegisterStays`: `CaughtErrorKeepsWrites`, `DoneIsKept`
- `HolesCollide`: `CanonicalIff`
- `CompleteMayLookTruncated`, `EmptyMayLookTruncated`: `FalseAlarmIff`

## Model

| member | source | states |
|---|---|---|
| `CoordinatorRuns.ReachableRowsAreCoherent` | aws/postgres-coordinator.ts:486-579 | In every run of any number of instances at statement granularity, each job row is coherent: pending has neither runtime nor claim time, offered and running have both; active, payload present, no completion time and no reply go together; a response is present exactly while a reply is owed; owner and claim time exactly while delivering; attempts stay below 5 until the reply is settled and never exceed 5 |
| `CoordinatorRuns.ApplyKeepsInv` | aws/postgres-coordinator.ts:1024-1103 | Coherence is inductive, together with the fact that the attempt count an instance carries through a post is the row's while it still owns the row |
| `CoordinatorRuns.UpdateFollowsEdges` | aws/postgres-coordinator.ts:1024-1103 | Every statement follows the two state graphs of a row; only removal turns completed into failed, and only while the reply is owed; settled rows do not change |
| `CoordinatorRuns.SettledForever` | aws/postgres-coordinator.ts:1024-1113 | Terminal delivery is absorbing until retention deletes the row |
| `CoordinatorRuns.StartsAtMostOnce` | aws/postgres-coordinator.ts:892-926 | In every run a job enters running at most once per inserted row |
| `CoordinatorRuns.RunningWasStarted` | aws/postgres-coordinator.ts:892-926 | A running job was started by the runtime that held its offer at that moment and has run under it ever since |
| `CoordinatorRuns.CompletionBelongsToStarter` | aws/postgres-coordinator.ts:928-985 | Only the runtime that held the offer when the job started can have a completion recorded |
| `CoordinatorRuns.OnlyOffersAreReleased` | aws/postgres-coordinator.ts:1124-1136 | Lease expiry, disconnect, reconnect and restart return only offers to pending, never a running or settled job |
| `CoordinatorRuns.RemovalTombstones` | aws/postgres-coordinator.ts:357-390 | Removal leaves no active job, no undelivered reply and no credential row, and raises the reset generation |
| `CoordinatorRuns.TombstoneIsStable` | aws/postgres-coordinator.ts:357-457 | That stays so in every later state any instance reaches; no later enqueue or consume takes effect and the generation stays above the one before removal |
| `CoordinatorRuns.GenerationNeverFalls` | aws/postgres-coordinator.ts:1237-1255 | The reset generation never falls and the removal time is never rewritten |
| `CoordinatorRuns.SecondPostIffLeaseExpired` | aws/postgres-coordinator.ts:1024-1055 | Across processes a second post of a reply starts while the first is in flight exactly when the first one's 60 s lease has run out |
| `CoordinatorRuns.TwoPostsInFlight` | aws/postgres-coordinator.ts:1024-1055 | So delivery is at least once: two instances can post the same reply |
| `RefreshRotation.SameTokenForEveryPresenter` | aws/postgres-coordinator.ts:809-890 | In every run all accepted requests that present one refresh id are sent one token, a later one than the id presented |
| `RefreshRotation.ReplayAcrossTime` | aws/postgres-coordinator.ts:809-890 | That holds across any continuation of the run: the recorded answer is replayed, also after restarts and retries |
| `RefreshRotation.ApplyKeepsAnswers` | aws/postgres-coordinator.ts:809-890 | A recorded answer is never replaced, not even after its row is gone |
| `RefreshRotation.AnswerAndSuccessorTogether` | aws/postgres-coordinator.ts:842-886 | Recording an answer and registering its successor are one atomic step |
| `RefreshRotation.ChainsNeverReturn` | aws/postgres-coordinator.ts:842-886 | The rotation chain is acyclic |
| `RefreshRotation.ChainsNeverMerge` | aws/postgres-coordinator.ts:842-886 | No two ids lead to the same successor |
| `JobSelection.SelectFirst` | aws/postgres-coordinator.ts:720-759 | ORDER BY ... LIMIT 1 as a loop: the least matching job |
| `JobSelection.SelectBatch` | aws/postgres-coordinator.ts:519-579 | ORDER BY ... LIMIT n as a loop: min(n, matches) distinct jobs, in order, none that is left out comes before them |
| `CoordinatorEffects.DeliveryLightens` | aws/postgres-coordinator.ts:1024-1103 | One delivery attempt keeps coherence and strictly reduces what is left to do for a reply that is due |
| `CoordinatorEffects.ClaimKeepsOneOffer` | aws/postgres-coordinator.ts:720-759 | A claim made without interference leaves each runtime at most one unexpired offer |
| `CoordinatorEffects.OfferKeepsOneOfferIff` | aws/postgres-coordinator.ts:743-759 | The offering statement itself keeps one unexpired offer per runtime exactly if its job cannot be offered live or the runtime holds no unexpired offer |
| `CoordinatorEffects.NeverTwoLiveOffers` | aws/postgres-coordinator.ts:720-759 | Over every run of one serialised coordinator no runtime ever holds two unexpired offers |
| `CoordinatorEffects.TwoInstancesOfferTwice` | aws/postgres-coordinator.ts:720-759 | Two instances that claim from the same stale read can give one runtime two offers; OfferKeepsOneOfferIff says exactly when an offer does that |
| `CoordinatorEffects.SweepReleasesStaleOffers` | aws/postgres-coordinator.ts:519-533 | After a sweep no offer is older than its lease |
| `CoordinatorEffects.SweepSettlesBatches` | aws/postgres-coordinator.ts:534-555 | A sweep fails min(100, n) overdue running jobs and expires min(100, n) waiting ones, exactly those it selected |
| `CoordinatorEffects.SweepIsLighter` | aws/postgres-coordinator.ts:519-579 | A sweep adds no work and strictly reduces every row it handles |
| `CoordinatorEffects.SweepMakesProgress` | aws/postgres-coordinator.ts:519-579 | With all deadlines past, a sweep strictly decreases a measure over active jobs and 5 - attempts of owed replies while any is left |
| `CoordinatorEffects.DeadlinesStayPast` | aws/postgres-coordinator.ts:519-579 | A sweep starts no deadline anew: what is past stays past at any later time |
| `CoordinatorEffects.SweepsFinish` | aws/postgres-coordinator.ts:519-579 | So repeated sweeps, the first of which finds all deadlines past, have left no work after more rounds than the measure says, and none comes back |
| `CoordinatorEffects.IdleStaysIdle` | aws/postgres-coordinator.ts:519-579 | Where there is no work a sweep handles no row and makes none |
| `ClawCoordinator.AwsClawCoordinator.EnqueueTurn` | aws/postgres-coordinator.ts:581-622 | Inserts once per event and job id, reports the duplicate's id, refuses after removal |
| `ClawCoordinator.AwsClawCoordinator.ClaimJob` | aws/postgres-coordinator.ts:720-807 | Repeats the oldest unexpired offer, else offers the oldest pending job, else reports none; one offer per runtime is kept |
| `ClawCoordinator.AwsClawCoordinator.StartJob` | aws/postgres-coordinator.ts:892-926 | Acknowledged exactly when the job now runs under this runtime, repeated starts included |
| `ClawCoordinator.AwsClawCoordinator.CompleteJob` | aws/postgres-coordinator.ts:928-985 | Records a completion only for the running runtime, acknowledges repeats without changing the result, and delivers |
| `ClawCoordinator.AwsClawCoordinator.Deliver` | aws/postgres-coordinator.ts:1024-1103 | Claim, post and verdict as one attempt; without a Slack token the reply is given up |
| `ClawCoordinator.AwsClawCoordinator.SettleAndDeliver` | aws/postgres-coordinator.ts:987-1022 | Fails or expires a job only if it is still in the expected state, and then delivers the notice |
| `ClawCoordinator.AwsClawCoordinator.ConsumeOnce` | aws/postgres-coordinator.ts:442-457 | A grant is consumed exactly when it matches, and never again at any time |
| `ClawCoordinator.AwsClawCoordinator.PrepareForRemoval` | aws/postgres-coordinator.ts:357-390 | The removal transaction, its tombstone and the raised generation |
| `ClawCoordinator.AwsClawCoordinator.CleanupSweep` | aws/postgres-coordinator.ts:519-579 | The loops of the sweep: release, fail, expire, deliver 20, delete expired rows; other claws are untouched |
| `CoordinatorDirectory.AwsCoordinatorDirectory.CleanupSweep` | aws/postgres-coordinator.ts:157-193 | The paged directory loop terminates and sweeps every initially eligible claw exactly once, in id order, and no other |
| `RuntimeSockets.RuntimeSockets.FrameArrives` | aws/postgres-coordinator.ts:1174-1194 | A frame is queued on an attached socket, buffered before that, and the buffer is dropped past 8 frames or 256 KiB: the step of the runs, in place |
| `RuntimeSockets.RuntimeSockets.RunAttach` | aws/postgres-coordinator.ts:231-275 | Attaching evicts exactly the other socket of the same runtime; closed and overflowed sockets are not attached |
| `RuntimeSockets.RuntimeSockets.BeginFlush` | aws/postgres-coordinator.ts:1196-1208 | The whole buffer is handed over at once |
| `RuntimeSockets.RuntimeSockets.FlushFrame` | aws/postgres-coordinator.ts:1196-1208 | Buffered frames are handled in order before anything queued later |
| `RuntimeSockets.RuntimeSockets.RunMessage` | aws/postgres-coordinator.ts:482-484 | A queued frame is handled when its socket is still attached and dropped otherwise |
| `RuntimeSockets.RuntimeSockets.SocketCloses` | aws/postgres-coordinator.ts:505-513 | Closing drops the buffer at once and detaches in turn |
| `SocketRuns.BufferIsBounded` | aws/postgres-coordinator.ts:1174-1194 | In every run the pre-attach buffer holds at most 8 frames and 256 KiB, and a runtime has at most one attached socket |
| `SocketRuns.HandledInOrder` | aws/postgres-coordinator.ts:1174-1208 | In every run the handled frames of a socket that stays open are the first of those sent to it, once each and in order |
| `SocketRuns.DrainedMeansHandled` | aws/postgres-coordinator.ts:1174-1208 | Once the queue of any run has drained, an attached socket that stayed open has had every frame sent to it handled exactly once in order |
| `SocketRuns.StepKeepsInv` | aws/postgres-coordinator.ts:231-275 | Every step between two awaits keeps the invariant behind these results, whatever the interleaving of frames, closes, attachments, restarts and flushes |
| `WorkerDelivery.CrabhelmClawCoordinator.Deliver` | worker/claw-coordinator.ts:520-548 | Joins the delivery in flight, or reads the row again and starts one for an undelivered reply; without a token it is given up |
| `WorkerDelivery.CrabhelmClawCoordinator.Post` | worker/claw-coordinator.ts:549-556 | The decrypted reply is posted; the row is not read again |
| `WorkerDelivery.CrabhelmClawCoordinator.PostAccepted` | worker/claw-coordinator.ts:554-558 | Success writes delivered whatever the row says by then |
| `WorkerDelivery.CrabhelmClawCoordinator.PostFailed` | worker/claw-coordinator.ts:559-572 | Failure counts the attempt and gives the reply up after a permanent error or the fifth attempt |
| `WorkerDelivery.CrabhelmClawCoordinator.Settle` | worker/claw-coordinator.ts:479-518 | Completion, failure and cancellation give an active job its answer once |
| `WorkerDelivery.CrabhelmClawCoordinator.PrepareForRemoval` | worker/claw-coordinator.ts:212-225 | Removal gives up every reply that is owed |
| `DeliveryRuns.OneFlightPerJob` | worker/claw-coordinator.ts:520-529 | In every run a job has at most one delivery, hence one post, in flight |
| `DeliveryRuns.FivePostsAtMost` | worker/claw-coordinator.ts:530-572 | Every run makes at most five posts of a job |
| `DeliveryRuns.NoPostAfterSuccess` | worker/claw-coordinator.ts:530-572 | Once Slack accepted a post of a job, no continuation posts it again or owes its reply |
| `DeliveryRuns.StepKeepsInv` | worker/claw-coordinator.ts:479-572 | Every event keeps single flight and the bookkeeping of rows, snapshots and attempts behind these results |
| `DeliveryRuns.OnlyAcceptanceRevives` | worker/claw-coordinator.ts:556-570 | An accepted post is the only event after which a given-up row that is still there says something else |
| `DeliveryRuns.RevivableIff` | worker/claw-coordinator.ts:530-570 | A given-up row can still become delivered in some continuation exactly while a delivery of its job, decrypting or posting, is unfinished |
| `DeliveryRuns.RemovalHoldsIff` | worker/claw-coordinator.ts:212-225 | After any run, removal leaves each job delivered or given up, and what it gives up stays so in every continuation exactly if no delivery of that job was unfinished at that moment |
| `DeliveryRuns.RemovalOvertaken` | worker/claw-coordinator.ts:212-225 | The two runs in which a removal records failure and the row then becomes delivered: it comes during decryption, or during the post |
| `ClawRecords.CreatedIsNormal` | src/domain.ts:330-386 | A created record is in normal form |
| `ClawRecords.NormalizedInference` | src/domain.ts:68-144 | Normalisation yields an inference policy in normal form: distinct models of one kind, the model's own provider, a budget within bounds, a trimmed credential reference, the claw's own ClawRouter binding inside the allowlist |
| `ClawRecords.NormalInferencePasses` | src/domain.ts:68-144 | It leaves a normal policy unchanged, unless it is passed with its provider's name and that is longer than 80 characters |
| `ClawRecords.UpdateIsNormal` | src/domain.ts:388-455 | An update keeps the normal form, what it does not own, and bumps revision and generation by one exactly when it changes something |
| `ClawRecords.NormalFormIsFixpoint` | src/domain.ts:388-455 | The empty patch leaves a record in normal form alone exactly if its provider's name has at most 80 characters, and is refused otherwise |
| `ClawRecords.LongProviderIsStuck` | src/domain.ts:88-93 | A claw that can be created, without naming the provider, and that no empty patch can pass: the first part of its direct model is longer |
| `PolicyTemplates.NormalizedSpecIsNormal` | src/domain.ts:274-292 | A stored policy is in normal form and normalising it again changes nothing |
| `PolicyTemplates.ShownModelsAreModels` | src/domain.ts:312-328 | The printed lists of fallback models in a preview are equal exactly when the lists are |
| `PolicyTemplates.EmptyDiffIffManaged` | src/domain.ts:312-328 | A preview is empty exactly when all managed fields are equal |
| `PolicyTemplates.ApplicationEmptiesDiff` | src/domain.ts:294-328 | After a successful application the preview is empty and the record carries the policy's id and version |
| `PolicyTemplates.UnchangedIffPreviewEmpty` | src/domain.ts:388-455 | Applying changes nothing, revision and generation included, exactly when the preview is empty and the id and version are already there |
| `PolicyTemplates.ReapplicationChangesNothing` | src/domain.ts:388-455 | Applying the same version again changes nothing |
| `FleetRegistry.UpdateWrites` | src/registry.ts:285-315 | An accepted update keeps id, slug, normal form and observed state |
| `FleetRegistry.CrabhelmRegistry.Create` | src/registry.ts:258-283 | A claw is registered unless its input, placement or a live claw's slug refuses it; slugs of live claws stay unique |
| `FleetRegistry.CrabhelmRegistry.Update` | src/registry.ts:285-315 | Refused for deleting claws and for moving an allocated workspace; an unchanged record is neither written nor audited |
| `FleetRegistry.CrabhelmRegistry.SetClawEnabled` | src/registry.ts:348-371 | The same for enabling and disabling |
| `FleetRegistry.CrabhelmRegistry.RotateClawCredentials` | src/registry.ts:373-395 | The same for credential rotation |
| `FleetRegistry.CrabhelmRegistry.RequestRemoval` | src/registry.ts:397-435 | Needs the typed name or slug, disables the claw and sets the deletion marker once |
| `FleetRegistry.CrabhelmRegistry.WriteObserved` | src/registry.ts:437-463 | Compare-and-swap on the revision; a conflict writes nothing |
| `FleetRegistry.CrabhelmRegistry.AddPolicyVersion` | src/registry.ts:153-189 | Versions are append-only, normalised, at most 100, and differ from the latest |
| `FleetRegistry.CrabhelmRegistry.PreviewPolicy` | src/registry.ts:191-211 | The targets' current generations and differences; every target must exist and be mutable |
| `FleetRegistry.CrabhelmRegistry.ApplyPolicy` | src/registry.ts:213-256 | Succeeds exactly when all targets are fresh and accept the policy, then changes exactly them and returns, in target order, the records it altered and those it did not; on any failure a transactional store is untouched, and without one exactly a prefix of the targets is changed |
| `FleetRegistry.OutcomesTell` | src/registry.ts:232-254 | A target's record is returned as updated exactly if the policy altered it, else as unchanged |
| `FleetRegistry.AppliedPreviewIsEmpty` | src/registry.ts:213-256 | After a successful application every target's preview is empty and applying again changes nothing |
| `FleetRuns.RemovalOnlyAfterQuietDrain` | src/reconciler.ts:128-206 | In every run with racing writers, each call of provider.remove comes after two committed drained observations, the second judged at least the quiet period after the first, with no undrained one committed since the first |
| `FleetRuns.DeletedAfterAbsenceAndRevocation` | src/reconciler.ts:207-217 | Deleted is reached only after provider absence and then a confirmed control revocation |
| `FleetRuns.DeletionSurvives` | src/reconciler.ts:93-226 | Once requested, the deletion marker survives every step, errors included, until deleted; its stage never falls, the desired state is frozen, and deleted is final |
| `FleetRuns.ConvergenceIsSound` | src/reconciler.ts:227-358 | Along honest answers: ready at equal generations has evidence for exactly the current enabled desired state, with a verified route when routed; disabled at equal generations means desired is disabled; the observed generation never exceeds the desired one |
| `FleetRuns.GenerationNeverOvertakes` | src/reconciler.ts:227-358 | The observed generation never exceeds the desired one, whatever the provider answers |
| `FleetRuns.SoundStepIff` | src/reconciler.ts:227-330 | A write that takes effect keeps that soundness exactly if the provider's answer behind it is honest or earlier evidence for the same desired state stands in for it |
| `FleetRuns.InspectConverges` | src/reconciler.ts:293-330 | The same for one inspection, for any claw and route |
| `FleetRuns.ProvisionConverges` | src/reconciler.ts:238-274 | The same for one provisioning |
| `FleetRuns.ApplyKeepsInv` | src/reconciler.ts:76-358 | The invariant behind the deletion results is kept by every step, whatever the provider answers: desired writers, stale and fresh reconciliations, provisioning, pairing approvals, removal calls |
| `FleetRuns.ReleaseIff` | src/reconciler.ts:128-186 | The drain stage moves on to release under exactly these answers |
| `FleetRuns.ObservationsMayBeCloser` | src/reconciler.ts:144-172 | The quiet period is judged by a later clock reading, so the two observations may be closer together than it |
| `FleetRuns.UnprovenReadyIff` | src/reconciler.ts:302-330 | An inspection makes an outdated claw ready at its generation without proof exactly when it reports the policy applied and leaves the phase ready without calling the workspace healthy |
| `FleetRuns.StaleDisabledIff` | src/reconciler.ts:302-330 | It leaves an outdated claw disabled at its generation exactly when it reports the policy applied and leaves out the phase of a claw on record as disabled |
| `FleetRuns.UnsoundProvisionIff` | src/reconciler.ts:244-258 | Provisioning makes a claw ready on unsound evidence exactly when the provider reports ready with health unknown and the route is proven |
| `FleetRuns.ReadyWithoutHealthy` | src/reconciler.ts:302-330 | With a provider that calls a workspace ready but not healthy, ready at equal generations needs no proof |
| `FleetRuns.DisabledWhileEnabled` | src/reconciler.ts:302-330 | With a provider that leaves out the phase, a stale disabled survives at an enabled generation |
| `FleetRuns.DeletionDecides` | src/reconciler.ts:93-226 | Each deletion stage makes only the protocol's moves, with the observation each needs |
| `FleetReconciler.CrabhelmReconciler.AdvanceDeletion` | src/reconciler.ts:93-226 | The staged code computes what the decision function says, error cases included |
| `FleetReconciler.CrabhelmReconciler.ReconcileOne` | src/reconciler.ts:76-358 | Without interference a reconciliation stores exactly what the decision functions say, in one write or two |
| `FleetReconciler.CrabhelmReconciler.ReconcileAll` | src/reconciler.ts:48-58 | One pass reconciles each listed claw once and nothing else; a second pass at the same time does nothing |
| `Governance.GovernanceRegistry.DecideConfirmation` | src/governance-registry.ts:257-272 | Only the requester decides, once, before expiry; a transactional store drops the `expired` status together with the error |
| `Governance.GovernanceRegistry.UseConfirmation` | src/governance-registry.ts:274-285 | Uses up an approved, unexpired confirmation that matches in all six fields |
| `Governance.GovernanceRegistry.UpdateInvocation` | src/governance-registry.ts:291-305 | A terminal outcome is never rewritten |
| `Governance.FindConnection` | src/governance.ts:443-454 | The first active connection of the principal that covers the capability, none that covers it coming before, if there is one |
| `Governance.ResolvedActorIsAuthorised` | src/governance.ts:252-295 | The actor is the requester or the persona's service principal, acts with its own covering connection, and stands in only where the persona allows it and the requester has none |
| `Governance.FallbackPrefersRequester` | src/governance.ts:252-295 | A fallback persona resolves exactly when either side is connected, the requester first |
| `GovernedRuns.OneApprovalPerCall` | worker/governance-controller.ts:143-247 | In every run each provider call for an always-confirmed capability maps to a confirmation its own requester approved before expiry for the same persona, actor, capability, target and arguments; different calls map to different confirmations |
| `GovernedRuns.GrantExecutesAtMostOnce` | worker/governance-controller.ts:193-222 | Every grant leads to at most one provider call |
| `GovernedRuns.OutcomeIsFinal` | src/governance-registry.ts:291-305 | A terminal outcome that any run has recorded is the outcome in every continuation, until the store evicts the record |
| `GovernedRuns.RunOutcomeIsFinal` | aws/postgres-coordinator.ts:470-480 | A terminal run row keeps its outcome under any sequence of statements, until it is deleted |
| `GovernedRuns.ApplyKeepsInv` | worker/governance-controller.ts:143-247 | The invariant linking confirmations, tokens, grant rows, executions and calls is kept by every interleaved step, evictions and removals included |
| `GovernanceController.GovernanceController.IssueInvocation` | worker/governance-controller.ts:143-184 | Asks for a confirmation, or uses it up, saves the invocation and registers its grant |
| `GovernanceController.GovernanceController.ExecuteGithub` | worker/governance-controller.ts:195-247 | The provider is asked only after the grant was consumed for exactly these arguments; what it answered is what the caller is told, and each bookkeeping failure leaves its warning |
| `ManagedConfig.RoundTripIff` | src/node-control.ts:925-1098 | For every prior configuration, reading after applying gives back the desired value exactly for the values that parsing lets through |
| `ManagedConfig.ApplyAgain` | src/node-control.ts:1006-1098 | Applying twice equals applying once |
| `ManagedConfig.UnmanagedIsKept` | src/node-control.ts:1006-1098 | Every path that neither leads to a managed one nor lies in it keeps its value or its absence; with a router, the other fields and headers of its provider are not managed |
| `ManagedConfig.AllowKeepsUnmanaged` | src/node-control.ts:1016-1029 | After an application the allow list has the unmanaged ids that were there, in first-occurrence order, and the ids called for, none twice |
| `ManagedConfig.HeadersAreKept` | src/node-control.ts:1032-1048 | A routed application keeps every other field of the router's provider and every unrelated header at any depth; of the attribution headers only the project's is there afterwards |
| `ManagedConfig.RouterReadsBack` | src/node-control.ts:944-1052 | The router binding is read back exactly, absence included |
| `ManagedConfig.OtelReadsBack` | src/node-control.ts:925-1098 | The telemetry settings are read back, with logs off and empty endpoints as absent |
| `ChildConfig.AppliedIsReported` | src/node-control.ts:116-163 | A successful child apply is reported at once and has written what was desired |
| `ChildConfig.StatusIsHonest` | src/node-control.ts:780-801 | In every run the child reports an applied desired hash exactly while its managed state is what the last successful compare-and-swap wrote |
| `ChildConfig.IngressUndoesItselfIff` | src/node-control.ts:1117-1142 | Any number of disables then enables restores every channel exactly if and only if each `enabled` was boolean or absent; from a configuration already marked disabled, if and only if each recorded state is what its channel has |
| `ChildConfig.IngressAgain` | src/node-control.ts:1117-1142 | Repeated disables and repeated enables change nothing more |
| `ChildConfig.DisabledChannelsAreOff` | src/node-control.ts:1117-1130 | After a disable the configuration is marked, and a channel is off exactly if the configuration was not marked before or the channel was off |
| `ChildConfig.DisabledRunIsOffIff` | src/node-control.ts:1117-1142 | In every run from any configuration, while the mark is there: a channel is off exactly if the last disable that took effect, application or foreign edit that speaks of it left it off, or none did and it was off at the start |
| `ChildConfig.OffSinceDisableIff` | src/node-control.ts:1117-1142 | So since a disable that took effect, a channel is off under the mark exactly if no later application or foreign edit has the last word for on |
| `ChildConfig.DisabledStaysOff` | src/node-control.ts:1117-1142 | In particular it is off if nothing has turned it on since |
| `ChildConfig.ApplicationAndIngress` | src/node-control.ts:1006-1098 | An application leaves the mark alone, and of the channels it switches only Slack |
| `ChildConfig.SecondDisableIsIgnored` | src/node-control.ts:1121 | After disable, an application that enables Slack, and another disable, the mark is there and Slack is on; the parent takes the mark alone as confirmation (lines 481-483) |
| `ChildConfig.EditedChannelStaysOn` | src/node-control.ts:1121 | The same with a foreign edit that switches on any channel |
| `ChildConfig.OwnSectionIsNotManaged` | src/node-control.ts:1104-1115 | The plugin's own section is no managed state |
| `ChildHost.ChildPlugin.ApplyManagedDesired` | src/node-control.ts:1006-1098 | The in-place edits compute the application function |
| `ChildHost.ChildPlugin.ApplyCommand` | src/node-control.ts:116-163 | Compare-and-swap: nothing changes when the managed state is not the expected one |
| `ChildHost.ChildPlugin.SetChannelIngress` | src/node-control.ts:1117-1142 | The loops over channels compute the ingress function |
| `ChildHost.FilterAllow` | src/node-control.ts:1016-1029 | The filter keeps first occurrences of unmanaged ids |
| `ChildHost.DropAttribution` | src/node-control.ts:1041-1047 | The loop deletes exactly the attribution headers |
| `BoundedStores.RegisteredIsBounded` | src/state.ts:100-122 | The specification of register: the size stays within the cap, replacement refreshes the age, overflow evicts exactly the entry least in (createdAt, key) or fails |
| `BoundedStores.SqlStateDatabase.Register` | aws/postgres-state.ts:34-78 | The SQL form computes the specification and leaves other namespaces alone |
| `BoundedStores.SqlStateDatabase.SelectOldest` | src/state.ts:88-98 | ORDER BY created_at, key LIMIT 1 is the least entry |
| `BoundedStores.SqlStateDatabase.Transaction` | src/state.ts:143-160 | All of a transaction or none of it, nested transactions included |
| `BoundedStores.ExecIsBounded` | aws/postgres-state.ts:116-151 | Wherever a transaction stops, every namespace is within its cap |
| `BoundedStores.CaughtErrorKeepsWrites` | src/state.ts:143-145 | A nested transaction joins the outer one: a caught error there keeps exactly the writes made before it |
| `BoundedStores.DoneIsKept` | src/state.ts:143-160 | Wherever operations stop, nested ones included, the tables are what exactly the writes made so far leave, none of which fails |
| `BoundedStores.LastRegisterStays` | src/state.ts:143-145 | In particular an entry registered last before a caught error is there afterwards |
| `BoundedStores.DurableObjectStateDatabase.CountAndOldest` | worker/state.ts:40-66 | The loop over pages of 128 finds the same count and the same oldest entry, for any listing order |
| `BoundedStores.DurableObjectStateDatabase.Register` | worker/state.ts:36-74 | The paged form computes the specification and leaves other namespaces alone; a full store fails unchanged |
| `BoundedStores.DurableObjectStateDatabase.Transaction` | worker/state.ts:87-92 | An outer transaction is all or nothing; one inside another joins it |
| `CanonicalJson.CanonicalIff` | src/domain.ts:539-546 | Two values print alike if and only if they are equal up to the order of object keys and up to the only pair not told apart, an array whose one item is undefined and an empty array |
| `CanonicalJson.ProperIff` | src/domain.ts:539-546 | So without such arrays, printing alike is equality up to key order, other undefined items included |
| `CanonicalJson.PrintIsInjective` | src/domain.ts:539-546 | Equal texts come from equal values, by unique readability of every printed value |
| `CanonicalJson.SamePrints` | src/domain.ts:539-546 | Values equal up to key order print alike |
| `CanonicalJson.PrintedIsWhole` | src/domain.ts:539-546 | What follows a printed value tells where it ends, strings and nesting included |
| `CanonicalJson.StringReadsBack` | src/domain.ts:540-545 | An escaped string reads back exactly, lone surrogates included (section 7 of RFC 8259) |
| `CanonicalJson.HolesCollide` | src/domain.ts:541 | An array whose only item is undefined prints as the empty one; with a second item it does not |
| `CanonicalJson.PolicyTextsAgreeIff` | src/domain.ts:502-515 | What childPolicyHash digests agrees exactly when all nine hashed fields agree |
| `MemberDiscovery.GitHubRestMemberSource.Preview` | src/github.ts:64-116 | The paging loop terminates with at most the cap of members, unique ids, sorted by login; an answer not marked truncated is exactly the distinct eligible members |
| `MemberDiscovery.GitHubRestMemberSource.TakePage` | src/github.ts:90-104 | One page: distinct eligible members in order until the cap |
| `MemberDiscovery.EligibleIsExact` | src/github.ts:166-190 | Every member comes from an entry and every eligible entry's id is present |
| `MemberDiscovery.UntruncatedIsComplete` | src/github.ts:98-109 | Without the truncation mark the whole listing was visited |
| `MemberDiscovery.FalseAlarmIff` | src/github.ts:90-109 | The mark is set on a complete answer exactly if there are at most cap members, none after the page limit, and they fill the cap with a full last page or a last entry that adds nobody, or do not fill it while the listing reaches the page limit |
| `MemberDiscovery.CompleteIff` | src/github.ts:74-109 | The answer has every eligible member exactly if there are at most cap of them, all within the page limit |
| `MemberDiscovery.CompleteMayLookTruncated` | src/github.ts:98-103 | One such answer: a full last page that just fills the cap |
| `MemberDiscovery.EmptyMayLookTruncated` | src/github.ts:105-108 | Another: two full pages without members under a cap of 150 |
| `MemberDiscovery.SortByLogin` | src/github.ts:110-114 | Sorting permutes |

## Left out

- Cryptography is idealised: tokens are unforgeable and fresh, digests are identified with what they digest, sealed
  payloads open to what was sealed. Job, confirmation, invocation and token ids are never reused.
- Slack, GitHub, provider, inference and socket calls appear only as outcomes that may be anything; a stored Slack
  source is assumed to decode, as it was validated on entry.
- Clocks are integers. The run results need no synchronised clocks except where a lemma names a clock reading.
- Database drivers, retries of serialisation failures and connection loss: a statement or transaction commits as a
  whole or not at all.
- The Durable Object of `DeliveryRuns` does not crash; a crash in the middle of a post would need its own
  at-least-once argument.
- The worker sibling's claims, grants and refresh are not modelled again; they are simpler forms of the AWS ones.
- Loops of `cancelPending` and `cancelActiveTurns`, ticket registration and reset are present as statements of
  `CoordinatorRuns`, not as methods.
- Regular expressions, length limits, URL parsing and environment parsing are predicates or assumed; trimming covers
  blanks, tabs and line ends, lower-casing covers ASCII.
- Slack, owner, placement and retention details of a claw are carried as opaque settings: they are validated on
  input and then only copied. Default deployments are not filled in, and policy names are not modelled.
- Upgrading of records from older versions: records are in normal form.
- `localeCompare` is assumed to be a strict total order on the keys and logins it is applied to.
- ReconcileOne: says nothing about audit events, which do not feed back into any decision.
- ChildPlugin.ApplyManagedDesired: nested records are values, so aliasing between parts of one configuration tree is
  not captured.
- ConvergenceIsSound: assumes honest answers (`HonestInspection`, `HonestProvision`), which the types of the provider
  interface do not enforce; `SoundStepIff` says what happens at each step without them. The deletion results assume
  nothing of the provider.
- AwsCoordinatorDirectory.CleanupSweep: no other instance writes while one directory sweep runs; interleaved statements
  are the subject of `CoordinatorRuns`.
- GitHubRestMemberSource.constructor: takes a whole number as its cap, as the configuration parses it.
- CrabhelmRegistry.Create: takes the id as a parameter that looks like a UUID, in place of the random one.
- The unbounded in-memory store, the scheduler, HTTP routing, identity, metrics, the web user interface and generated
  shell scripts.
