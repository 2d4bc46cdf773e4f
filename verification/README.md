# Shyam: a verified model of its coordination core

Shyam lets several devices share what they know, agree on whom they trust, choose a device for a piece of work, run
workflows on it and hand work over to another device. This project models the parts of it that keep state and decide,
in Dafny 4.11, and proves what every run of them does. `dafny verify dfyconfig.toml` checks everything.

The objects that the source updates in place are classes here (`SyncService`, `TrustService`, `BootstrapService`,
`WorkflowEngine`, `CancellationToken`, `CompositeEngine`, `EcosystemStateStore`, `ContinuityService`). Each of their
methods is proved against a function on values, and the theorems are about those functions: over every network run,
every interleaving, every answer of a collaborator and every moment of cancellation. Code outside the core (providers,
executors, the navigator as the engines see it, the bootstrap transport, the keys) is an arbitrary oracle that may
answer anything or raise.

## The parts

- **Peer synchronization** (`Versions`, `SyncModel`, `SyncService`, `SyncNetwork`, `SyncTheorems`, `SyncMemory`,
  `SyncAvailability`, `SyncDivergence`).
  Any number of nodes bump, update, send and receive; an envelope that was ever sent can reach any node, in any order
  and any number of times, and be accepted or rejected. The network carries a log, read by no node, of what each update
  added. `Complete(log, vector, facts)` says that the facts are exactly those of the updates that the vector covers, and
  it holds of every node and every envelope in every reachable network. That is why a receiver may skip an envelope
  whose vector it dominates.
- **The gate in front of it** (`Canonical`, `SyncSigning`, `SignedFields`, `Authenticator`, `Trust`, `Bootstrap`,
  `BootstrapAdmission`, `GatedNetwork`). The canonical form of nested data, what a signature covers, the trust records
  mirrored to a store, and the two-party handshake. `GatedNetwork` puts them together: every node has trust records that
  are granted and revoked during the run, and any envelope may arrive, made-up ones included. Under keys that only their
  nodes sign with and that trusted records pin, each such run is one of the network above.
- **Workflows** (`Workflow`, `WorkflowTheorems`, `StepOutcomes`, `StepEvents`, `ContextStore`, `ContextTheorems`). The
  engine is compared with a reference meaning, `Execute`: run the steps in order and stop at the first failure. Each
  result, call and event is then traced to what the collaborators answered. The store that observes the events is
  compared with the runs.
- **Composites** (`Composite`, `CompositeTheorems`, `BindingValues`, `CompositeOutcomes`, `CompositeTiming`,
  `CompositeRefinement`). The static check of bindings, the values that they stand for, the chain of single-step runs
  against the collaborators' answers and against one multi-step run, and the moment of a cancellation.
- **Continuity** (`Continuity`, `ContinuityTheorems`, `ContinuitySystem`, `ContinuityPipeline`, `ContinuityRouting`,
  `ContinuityService`).
  A session moves by stages with at most one outside call each; a stage with a call begins when the call is answered, so
  that the state stored while it is in flight is one that other sessions can meet. Stages of all sessions interleave at
  will.
- **Navigation** (`Ordering`, `Navigation`, `NavigationRules`, `Candidates`, `CandidateOrigins`). Discovery, filtering,
  the five-part ranking key and selection; `NavigationRules` says what is chosen in the terms of the constraints, and
  `CandidateOrigins` which listing of the snapshot each candidate comes from.

## What the code does not do

Where a promise fails, the model keeps the code, shows an input and states the exact condition.

- `process_incoming_envelope` promises that vector evaluation prevents state regressions and that merging is
  deterministic convergence (`src/shyam/sync/service.py:135-136`). That holds for vectors, capabilities and availability
  keys. For availability values, `ValuesConvergeExactly` gives the condition on the update histories: every run leaves
  nodes with equal vectors holding equal values if and only if at most one node makes any update (a bump is one) or no key
  is ever given two different values. `ValuesDoNotConverge` is a run in which two writers swap their values,
  `NewestValueIsLost` one in which a single writer's newest value is reset by a peer that only bumps.
- The composite check promises that only prior steps may be referenced (`src/shyam/composite/models.py:226-231`). It adds
  a step's own id before checking its bindings, so a step may name itself. `CheckedExactly` and `ResolvesExactly` give the
  condition, `SelfReferenceAccepted` an input.
- A transfer counts as done with any status but FAILED and CANCELLED, and the result then reports the transfers as
  completed: `CompletesExactly`, `RunningTransfersReportedCompleted`. `TransferFlagExactly` says when the report is true.
- A session stored as AUTHORIZED may still be waiting for the trust record: `AuthorizedInEveryRun` says exactly when,
  `AuthorizedBeforeTrust` is a run that gets there.
- `grant_trust` and `revoke_trust` do not load the store first, so a write by a service that has not been initialized
  drops the other stored records: `StoredRecordsSurvive`.
- The bootstrap client has no counterpart of the authority's revocation check: `ClientTrustChangesExactly`. The
  authority lets a self-signed request replace the pinned key of a node that it trusts: `PinSurvivesExactly`.
- The engine's step-started events carry no target, so the store never learns one from it: `EngineGivesNoTarget`. When
  it does learn one, its version does not move: `SameVersionExactly`.
- A composite that is cancelled within a step, with an empty reason, reports its step as failed: `InvokedFollows` lists
  the errors of every ending.
- A workflow without steps is COMPLETED even when its token was cancelled before the run (`RunMeaning` with no steps).
- Selection depends on the order of the candidates exactly when two different eligible ones share a ranking key:
  `OrderIndependentExactly`. On the order of the snapshot's dictionaries it does not depend when every node and provider
  is stored under its own id: `FiledSnapshotsChooseAlike`.

## Model

| member | source | states |
|---|---|---|
| `Versions.CompareVersions` | src/shyam/sync/versions.py:23-55 | the loop over the keys of both maps decides the pointwise order over all node ids, an absent id being version 0 |
| `Versions.MergeIsSupremum` | src/shyam/sync/versions.py:58-65 | the merged vector is the least upper bound of that order |
| `SyncService.SyncService.constructor` | src/shyam/sync/service.py:40-61 | a service starts at version 0 of itself, with no facts and an empty deque of any bound |
| `SyncService.SyncService.IncrementLocalVersion` | src/shyam/sync/service.py:73-79 | its own counter goes up by one and nothing else changes |
| `SyncService.SyncService.UpdateLocalFacts` | src/shyam/sync/service.py:81-95 | the observed facts are joined and the counter goes up by one, also when nothing was observed |
| `SyncService.UpdateObserves` | src/shyam/sync/service.py:81-95 | an update adds exactly the capabilities passed, keeps the last status of each node, and moves its own counter by one |
| `SyncService.SyncService.CreateSyncEnvelope` | src/shyam/sync/service.py:97-126 | the envelope is the signed snapshot of the state and changes nothing |
| `SyncService.SyncService.AuthenticateIncoming` | src/shyam/sync/authenticator.py:41-128 | the imperative check order equals Authenticate on the trust state, which is loaded exactly when the checks that need no record pass |
| `SyncService.SyncService.ProcessIncomingEnvelope` | src/shyam/sync/service.py:128-243 | a rejected or self-sent envelope changes no replicated state; any other leaves exactly the state and result of Receive |
| `SyncNetwork.ReceiveCases` | src/shyam/sync/service.py:175-218 | when self-sent and remembered envelopes are dominated, exactly the dominated ones are skipped and answered ALREADY_CURRENT, and exactly the BEHIND ones are APPLIED |
| `SyncNetwork.ShortcutsAreDominated` | src/shyam/sync/service.py:141-200 | in every reachable network a self-sent or remembered envelope is dominated by its receiver, so ignoring it loses nothing |
| `SyncNetwork.ReceiveJoins` | src/shyam/sync/service.py:188-212 | skipped or merged, the receiver ends at the least upper bound of both vectors with the union of both fact sets |
| `SyncNetwork.OwnVersionKept` | src/shyam/sync/service.py:188-218 | no delivery moves a node's own counter |
| `SyncNetwork.StepInv` | src/shyam/sync/service.py:73-212 | bump, update, send and delivery each keep the causal invariant of the whole network |
| `SyncNetwork.CausalCompleteness` | src/shyam/sync/service.py:81-212 | in every reachable network each node and each envelope ever sent holds exactly the facts of the updates that its vector covers |
| `SyncTheorems.RunIsJoin` | src/shyam/sync/service.py:175-212 | after any run a node is the join of its start, its own updates and the set of envelopes it accepted, for every deque bound |
| `SyncTheorems.OrderDoesNotMatter` | src/shyam/sync/service.py:175-212 | two runs with the same own updates in any order and the same set of accepted envelopes leave the same vector, capabilities and availability keys |
| `SyncTheorems.ReplayIsHarmless` | src/shyam/sync/service.py:57-200 | once accepted, an envelope delivered again in any later state answers ALREADY_CURRENT and changes no vector and no fact, even after its id left the deque |
| `SyncTheorems.FastForward` | src/shyam/sync/service.py:188-218 | a receiver that is BEHIND ends with exactly the sender's vector and facts, availability values included |
| `SyncTheorems.ReportedVersions` | src/shyam/sync/service.py:185-242 | the reported version before equals the one after, and for a change it is the number of the node's own updates |
| `SyncMemory.ReceiveReports` | src/shyam/sync/service.py:175-242 | a result names the envelope; own and remembered envelopes are answered with version 0 and change nothing, any other with the node's versions before and after, ALREADY_CURRENT exactly when dominated and CONFLICT exactly when neither vector covers the other |
| `SyncMemory.ProcessedIsNewest` | src/shyam/sync/service.py:57-200 | after any run the deque holds exactly the newest ids, up to its bound, of the envelopes that the node compared |
| `SyncMemory.EnvelopeCarries` | src/shyam/sync/service.py:97-126 | a created envelope carries the sender, its key, its whole state, the type and the id passed, under a signature over all of it |
| `SyncMemory.SentListsAll` | src/shyam/sync/service.py:97-126 | in every run each envelope sent lists exactly the node ids that its vector or one of its facts names, and the protocol version |
| `SyncTheorems.Convergence` | src/shyam/sync/service.py:97-212 | once updates stop and each node accepted, in any order, a last envelope of each other node, all hold one vector and all facts |
| `SyncTheorems.ChangeClosesGap` | src/shyam/sync/service.py:188-212 | an APPLIED or CONFLICT delivery strictly lowers the number of updates that its receiver does not cover |
| `SyncTheorems.GossipIsBounded` | src/shyam/sync/service.py:188-212 | without local updates the number of state-changing deliveries is at most the initial lag |
| `SyncAvailability.AgreementAfterDelivery` | src/shyam/sync/service.py:188-210 | exactly when one delivery leaves the receiver with the sender's availability values, and exactly when it leaves the receiver's own alone |
| `SyncAvailability.ValuesAgree` | src/shyam/sync/service.py:81-212 | in every run in which at most one node makes updates, or no key is given two values, nodes with equal vectors hold equal availability |
| `SyncDivergence.Exchange` | src/shyam/sync/service.py:97-212 | for any update histories of two nodes there is a run that leaves them with equal vectors, each with the other's last mail on top of its own values |
| `SyncDivergence.ValuesConvergeExactly` | src/shyam/sync/service.py:81-212 | for given update histories every run leaves nodes with equal vectors holding equal availability, if and only if at most one node makes any update or no key is given two different values |
| `SyncDivergence.ValuesDoNotConverge` | src/shyam/sync/service.py:202-210 | a run from the start in which two writers end with equal vectors and swapped values |
| `SyncDivergence.NewestValueIsLost` | src/shyam/sync/service.py:202-210 | a run from the start in which the only writer of a key ends with its older value although its own vector covers the newer one |
| `Canonical.CanonicalExactly` | src/shyam/sync/serializer.py:20-32 | two values normalize to one tree exactly when they are equal up to dictionary order at every depth, tuples read as lists and ids and dates as text |
| `Canonical.SortCommutes` | src/shyam/sync/serializer.py:20-32 | sorting entries before normalizing their values equals sorting them afterwards |
| `Canonical.NormalizeIdempotent` | src/shyam/sync/serializer.py:20-32 | normalizing twice is normalizing once |
| `SyncSigning.SignableCoversEverything` | src/shyam/sync/serializer.py:53-60 | two envelopes have the same signable data exactly when they agree on every field but the signature |
| `SignedFields.SignableFields` | src/shyam/sync/serializer.py:53-60 | the signed tree holds every field but the signature under its own name, sorted, down to each version, capability and status |
| `Authenticator.SignedPassesExactly` | src/shyam/sync/authenticator.py:34-128 | an envelope signed by its sender passes exactly at peers that trust the sender and pin its key or none |
| `Authenticator.AuthenticMeans` | src/shyam/sync/authenticator.py:41-128 | what passes comes from a TRUSTED sender and verifies under the key it carries, which is the pinned one if any |
| `Authenticator.RejectionExactly` | src/shyam/sync/authenticator.py:41-128 | the exact condition of each rejection: a well-formed envelope is refused as REVOKED or UNTRUSTED exactly by its sender's record, whatever its signature, and one of a trusted sender as INVALID_SIGNATURE exactly when it carries another key than the pinned one or does not verify; only rejections are ever answered |
| `GatedNetwork.FactsHaveTrustedOrigin` | src/shyam/sync/service.py:141-212 | whatever arrives, each fact that a node holds was there at first, observed by itself, or carried by an envelope whose sender it trusted at that moment, under the key it had pinned, if any |
| `GatedNetwork.RevokedIsUnheard` | src/shyam/sync/authenticator.py:75-87 | after a node revokes another, and until it grants it trust again, the whole network goes on as if nothing from the other had arrived at the node |
| `GatedNetwork.GatedRunIsNetworkRun` | src/shyam/sync/authenticator.py:90-122 | when trusted records pin the keys of their nodes and nobody else signs with those keys, every run with arbitrary arrivals reaches a network that a run of sent and delivered envelopes reaches |
| `GatedNetwork.FactsAreThoseGiven` | src/shyam/sync/service.py:141-212 | then a node holds exactly the facts that it observed or that some envelope carried past its gate |
| `Trust.TrustService.Initialize` | src/shyam/trust/service.py:44-51 | the store is loaded whole, once |
| `Trust.TrustService.GetRecord` | src/shyam/trust/service.py:53-59 | the record in memory after a lazy load, or an UNKNOWN one |
| `Trust.TrustService.GrantTrust` | src/shyam/trust/service.py:66-109 | the node's record becomes TRUSTED, keeping what the grant leaves out, and memory is written over the store |
| `Trust.TrustService.RevokeTrust` | src/shyam/trust/service.py:111-146 | the node's record becomes REVOKED with the reason recorded, and memory is written over the store |
| `Trust.TrustService.ListRecords` | src/shyam/trust/service.py:148-160 | exactly the records with the wanted status |
| `Trust.TrustService.GetTrustedNodeIds` | src/shyam/trust/service.py:162-165 | the ids inside the TRUSTED records, which are exactly the nodes that is_trusted accepts when every record is stored under its own id |
| `Trust.GrantKeeps` | src/shyam/trust/service.py:66-109 | a grant keeps the key, alias and metadata that it does not give anew, and every other record |
| `Trust.RevokeKeeps` | src/shyam/trust/service.py:111-146 | a revoke keeps all of the record but its status, adds its reason to the metadata, and keeps every other record |
| `Trust.LastDecisionStands` | src/shyam/trust/service.py:44-146 | once memory mirrors the store, over any history a node's status is the last decision about it and its key that of the last grant with a key, whatever revokes, grants without a key and restarts follow |
| `Trust.HistoryKeepsRecord` | src/shyam/trust/service.py:66-146 | once memory mirrors the store, any history keeps it so and changes a record only by a grant or revoke of that node |
| `Trust.StoredRecordsSurvive` | src/shyam/trust/service.py:66-146 | the other stored records survive a write exactly when memory had been loaded, or held records, or there were none |
| `Bootstrap.BootstrapService.HandleIncomingRequest` | src/shyam/bootstrap/service.py:56-132 | the authority's answer and new trust state are those of Handle |
| `BootstrapAdmission.AcceptedExactly` | src/shyam/bootstrap/service.py:72-132 | a request is accepted exactly when its signature verifies under the key it carries and the named node is not REVOKED, the signature being checked first; a refusal changes no record, an acceptance only the named node's, which pins the key |
| `BootstrapAdmission.RecordChangesWhenSpoken` | src/shyam/bootstrap/service.py:56-132 | over any sequence of requests a record that is not REVOKED becomes TRUSTED exactly when some signed request names its node, or it stays as it is |
| `BootstrapAdmission.SignedTextExactly` | src/shyam/bootstrap/service.py:72-75 | when ids and keys hold no colon, two requests sign one text exactly when they agree on request id, node id, key and time |
| `BootstrapAdmission.ColonsConfuse` | src/shyam/bootstrap/service.py:72-75 | two different pairs of ids with colons that sign one text |
| `BootstrapAdmission.RequestIsSigned` | src/shyam/bootstrap/service.py:152-172 | the client's request carries its identity and verifies under the key it carries |
| `BootstrapAdmission.ClientEndsExactly` | src/shyam/bootstrap/service.py:172-214 | the session ends FAILED, REJECTED or READY exactly as the transport raised, the reply refused or accepted; only READY touches a record, the authority's, which pins the key of the reply |
| `BootstrapAdmission.LegalExactly` | src/shyam/bootstrap/models.py:34-63 | which transitions are legal: one place further, or the end, from the states that allow it |
| `Bootstrap.BootstrapService.BeginClientBootstrap` | src/shyam/bootstrap/service.py:134-172 | a session is kept, the missing identity or sync service is reported, and otherwise the request is signed with the sync key |
| `Bootstrap.BootstrapService.CompleteClientBootstrap` | src/shyam/bootstrap/service.py:172-214 | the session ends READY, REJECTED or FAILED with no transition raised; only READY grants trust and bumps the version |
| `Bootstrap.Handshake` | src/shyam/bootstrap/service.py:56-214 | an honest bootstrap is refused with nothing changed exactly when the authority's record is REVOKED, and otherwise ends READY with both keys pinned |
| `Bootstrap.PinnedAdmitsSync` | src/shyam/sync/authenticator.py:41-128 | a pinned TRUSTED peer passes authentication until its record is granted or revoked again |
| `Bootstrap.HandshakeAdmitsSync` | src/shyam/bootstrap/service.py:56-214 | after a handshake that is not refused, envelopes of either side pass the other's authentication, through any history that leaves the two records alone |
| `Bootstrap.RequestsNeverUnrevoke` | src/shyam/bootstrap/service.py:56-132 | no sequence of bootstrap requests, from anyone, changes the record of a revoked node |
| `Bootstrap.PinSurvivesExactly` | src/shyam/bootstrap/service.py:56-132 | a sequence of requests leaves a trusted node's pinned key alone throughout exactly when none names the node with another key and a signature by that key |
| `Bootstrap.ClientTrustChangesExactly` | src/shyam/bootstrap/service.py:172-214 | the client's stored status of the authority changes exactly when the reply accepts and it was not TRUSTED, REVOKED included, whether or not its store was loaded |
| `Workflow.CancellationToken.Cancel` | src/shyam/workflow/engine.py:60-63 | the token is cancelled with the given reason |
| `Workflow.WorkflowEngine.ExecuteStep` | src/shyam/workflow/engine.py:294-437 | one step: the world, result, executor call and two events of Executed, whichever collaborator fails |
| `Workflow.WorkflowEngine.Run` | src/shyam/workflow/engine.py:109-292 | the loop and its early returns give the world, results, events, executor calls and state of Ran |
| `StepOutcomes.RunFollows` | src/shyam/workflow/engine.py:109-437 | in every run a result is COMPLETED, with the executor's output, exactly when the navigator selected a registered target and its executor answered, and otherwise FAILED with the error of the collaborator to blame, the worlds being threaded from step to step; the calls are those of the steps with a registered target, the rest is SKIPPED or CANCELLED with the first canceller's reason, and the run's error is that of the first failure or that reason |
| `StepEvents.RunTells` | src/shyam/workflow/engine.py:109-437 | every event of every run, in order: start, two a step executed, the failure, one a step left out, the cancellation or completion |
| `WorkflowTheorems.RunMeaning` | src/shyam/workflow/engine.py:128-292 | a run cancelled before a given step is the plain execution of the steps before it up to their first failure, with the rest reported as skipped or cancelled, and its events tell exactly that |
| `WorkflowTheorems.ResultShape` | src/shyam/workflow/engine.py:139-292 | one result a step in order: COMPLETED, then at most one FAILED with SKIPPED after it, then CANCELLED from the moment of cancellation; no executor call for a skipped or cancelled step |
| `WorkflowTheorems.StateMeansResults` | src/shyam/workflow/engine.py:250-282 | CANCELLED exactly when the last result is, FAILED exactly when some result is and none is CANCELLED, COMPLETED exactly when all are |
| `WorkflowTheorems.ResultCount` | src/shyam/workflow/engine.py:139-292 | every run reports every step, so the first result of a single-step run exists |
| `WorkflowTheorems.ExecuteAt` | src/shyam/workflow/engine.py:294-437 | the k-th result and executor call are those of the k-th step, with its input and chosen target |
| `ContextStore.EcosystemStateStore.UpdateDiscovery` | src/shyam/context/store.py:70-79 | the snapshot is replaced and the version moves |
| `ContextStore.EcosystemStateStore.OnWorkflowStarted` | src/shyam/context/store.py:85-103 | the work becomes active without a target, and the activity and the version move |
| `ContextStore.EcosystemStateStore.OnWorkflowCompleted` | src/shyam/context/store.py:105-126 | taken out, put back and deleted, the work ends up not active |
| `ContextStore.EcosystemStateStore.OnWorkflowFailed` | src/shyam/context/store.py:128-139 | the work is no longer active |
| `ContextStore.EcosystemStateStore.OnWorkflowCancelled` | src/shyam/context/store.py:141-152 | the work is no longer active |
| `ContextStore.EcosystemStateStore.OnStepStarted` | src/shyam/context/store.py:154-168 | only the first target of active work is kept, and neither activity nor version moves |
| `ContextStore.EcosystemStateStore.OnNode` | src/shyam/context/store.py:174-216 | a node event is one activity entry and one version |
| `ContextStore.ActiveExactly` | src/shyam/context/store.py:85-168 | the active work is exactly what was started and not ended since, each with the step count of its last start and the first target given after it |
| `ContextStore.ActivityIsNewest` | src/shyam/context/store.py:67-216 | the bounded activity is the newest entries of the full log, newest first |
| `ContextStore.DiscoveryIsLatest` | src/shyam/context/store.py:70-79 | the stored discovery is the last snapshot given, if any, whatever else happened since |
| `ContextStore.VersionCounts` | src/shyam/context/store.py:70-216 | the version is the number of entries ever logged and snapshots ever given |
| `ContextStore.SameVersionExactly` | src/shyam/context/store.py:70-216 | at two moments with one version the state is the same exactly when no notice in between gave a target for work that was active without one |
| `ContextTheorems.RunLog` | src/shyam/workflow/engine.py:128-282 | every run publishes only about itself, starts at most once and first, and has ended when it returns, also after fail-then-cancel and cancel-before-start |
| `ContextTheorems.OnlyOwnEventsMatter` | src/shyam/context/store.py:85-152 | whether work is active depends on the events about it alone |
| `ContextTheorems.StoreAgreesWithRuns` | src/shyam/context/store.py:85-152 | over any interleaving of engine runs with distinct ids, finished or still going, active work is exactly the runs that published their start and no end |
| `ContextTheorems.ReturnedRunIsNotActive` | src/shyam/workflow/engine.py:128-282 | a run that returned is not active, however it ended and whatever else went on |
| `ContextTheorems.EngineGivesNoTarget` | src/shyam/workflow/engine.py:305-312 | over any such interleaving, active work is that of one of the runs, with its step count and never a target |
| `Composite.ValidateStepReferences` | src/shyam/composite/models.py:207-246 | the loop accepts exactly the definitions with distinct step ids whose bindings name declared inputs, earlier steps or the step itself, and its error names a culprit |
| `Composite.ResolveBindings` | src/shyam/composite/engine.py:201-226 | the loop resolves every field in order and stops at the first that cannot be |
| `Composite.CompositeEngine.Invoke` | src/shyam/composite/engine.py:68-178 | the state, outputs, results, events, executor calls and errors of Invoked, or not found |
| `CompositeTheorems.CheckedExactly` | src/shyam/composite/models.py:207-246 | an accepted definition names only earlier steps exactly when no step binds itself |
| `CompositeTheorems.ResolvesExactly` | src/shyam/composite/engine.py:228-283 | when a step of an accepted composite starts, a binding lacks its source exactly if it names that step, and otherwise fails only on key extraction |
| `CompositeTheorems.ResolveAllExactly` | src/shyam/composite/engine.py:201-226 | a dictionary of bindings resolves exactly when each binding does |
| `BindingValues.GivesOrLacks` | src/shyam/composite/engine.py:228-283 | a binding stands for a value or lacks one for exactly one reason, and in dictionaries with distinct keys for one value only |
| `BindingValues.ResolveAllGives` | src/shyam/composite/engine.py:201-283 | resolved fields have, under each name, the value held under the source id of its last binding, or that of the entry with its key in it; a failure names the first field that lacks one |
| `CompositeOutcomes.InvokedFollows` | src/shyam/composite/engine.py:68-178 | in every invocation each step that ran was given exactly those values of the inputs and of the outputs of earlier steps, its result and executor call are what the collaborators answered in its world, and outputs, state and error follow from the results |
| `CompositeTiming.InvokedTimed` | src/shyam/composite/engine.py:105-150 | an invocation is cancelled at the first of the readings of the token, one before each step and two in its run, that finds it cancelled, with no result or a CANCELLED one for that step |
| `CompositeTheorems.BindingSoundness` | src/shyam/composite/engine.py:105-283 | an accepted composite never lacks an input, lacks a step output only at a step that binds itself, and completes only if no step does, whatever the services do and whenever it is cancelled |
| `CompositeTheorems.SelfReferenceAccepted` | src/shyam/composite/models.py:215-231 | a definition whose only step binds itself is accepted, and can only be cancelled or raise |
| `CompositeTheorems.CompositeShape` | src/shyam/composite/engine.py:105-178 | the results are one a step run, in order, all COMPLETED but perhaps the last, and the state says which |
| `CompositeRefinement.UncancelledRun` | src/shyam/workflow/engine.py:128-292 | without cancellation a run is the plain execution of its steps with the ones after a failure skipped |
| `CompositeRefinement.ChainExecutes` | src/shyam/composite/engine.py:105-161 | the chain of single-step runs is one execution of the steps it built from resolved bindings |
| `CompositeRefinement.CompositeRefinesWorkflow` | src/shyam/composite/engine.py:105-178 | without cancellation the chain gives the results, up to and including the first failure, and the final world and calls of one multi-step workflow whose inputs are the resolved bindings |
| `Navigation.Evaluate` | src/shyam/navigation/policy.py:27-157 | the filter loop and the sort give the selection, alternatives and rejections of Evaluated |
| `Navigation.SelectionPartitions` | src/shyam/navigation/policy.py:42-157 | no candidate is lost or duplicated, and exactly the ones that violate a check are rejected, with the first violated check |
| `Navigation.SelectionIsOptimal` | src/shyam/navigation/policy.py:119-157 | the selected candidate is an eligible one that is least under the five-part key, there is one unless none is eligible, and the alternatives follow in order |
| `NavigationRules.AdmissionExactly` | src/shyam/navigation/policy.py:46-118 | chosen are exactly the candidates whose node, provider and capability are available, which are local whenever local_only or not remote_allowed, and have the required state and status, each as often as given; the others are rejected in order, each for the first check of the policy that it fails |
| `NavigationRules.ChoiceInOrder` | src/shyam/navigation/policy.py:119-157 | the preferred node comes first, then the preferred provider, then local candidates, then ids by code point; what ties keeps its input order |
| `NavigationRules.PreferenceIsStrict` | src/shyam/navigation/policy.py:119-132 | of two candidates one is preferred or they share ids and locality |
| `Ordering.StrLeExactly` | src/shyam/navigation/policy.py:131-135 | the order on strings: a proper prefix first, or the smaller code point where they first differ |
| `Navigation.RankingIsStable` | src/shyam/navigation/policy.py:119-137 | under every ranking key the choice lists exactly the eligible candidates with it, in the order they were given in |
| `Navigation.TiesFollowInput` | src/shyam/navigation/policy.py:119-137 | one of two eligible candidates with one key is chosen before the other exactly when it was given before the other, wherever they stand |
| `Navigation.OrderIndependentExactly` | src/shyam/navigation/policy.py:119-157 | every order of the candidates gives the same choice exactly when no two different eligible ones share a key |
| `Candidates.DiscoverCandidates` | src/shyam/navigation/candidates.py:21-61 | the three nested loops list the candidates of Discovered |
| `CandidateOrigins.DiscoveredExactly` | src/shyam/navigation/candidates.py:30-61 | the candidates come one from each listing of the requested capability and from nothing else, in the snapshot's order, each property in its own field |
| `Candidates.DiscoveryPermutes` | src/shyam/navigation/candidates.py:30-61 | snapshots equal up to insertion order give the same candidates up to order |
| `Candidates.NavigationIgnoresInsertionOrder` | src/shyam/navigation/candidates.py:30-61 | and therefore the same choice, when keys tell the eligible apart |
| `Candidates.FiledSnapshotsChooseAlike` | src/shyam/navigation/candidates.py:30-61 | when every node and provider is stored under its own id, the same choice for every insertion order and all constraints, also with ties |
| `ContinuityService.ContinuityService.Transition` | src/shyam/continuity/service.py:507-536 | a transition outside the table changes nothing and raises; any other is saved, keeping the result unless one is given |
| `Continuity.LegalExactly` | src/shyam/continuity/state.py:42-109 | which transitions are legal: one place further, failure always, cancellation before verification, the other ends only where they belong |
| `ContinuityService.ContinuityService.SelectTarget` | src/shyam/continuity/service.py:227-281 | a raise or an empty selection fails the session; otherwise the target takes the first usable peer and url |
| `Continuity.OrChainFirst` | src/shyam/continuity/service.py:249-261 | the peer and url are the first usable of candidate, provider and node metadata |
| `ContinuityService.ContinuityService.VerifyTrust` | src/shyam/continuity/service.py:283-322 | one trust read of the target, and every answer but TRUSTED fails the session |
| `ContinuityService.ContinuityService.TransferArtifacts` | src/shyam/continuity/service.py:333-394 | the loop sends the artifacts one by one and stops at the first raise, FAILED or CANCELLED |
| `ContinuityService.ContinuityService.ContinueOnTarget` | src/shyam/continuity/service.py:396-453 | one continuation call, routed by url if there is one, and the result of its answer |
| `ContinuityService.ContinuityService.VerifyResult` | src/shyam/continuity/service.py:455-503 | the final state and outcome follow what the target reported |
| `ContinuityService.ContinuityService.RequestContinuity` | src/shyam/continuity/service.py:88-149 | a duplicate changes nothing; any other request runs the pipeline to a terminal state, saved and indexed |
| `ContinuityTheorems.StageProceeds` | src/shyam/continuity/service.py:153-503 | whatever is answered, a stage of a live session, also one whose call is in flight, makes no illegal transition, keeps the effect discipline and comes nearer to the end |
| `ContinuityTheorems.EffectDiscipline` | src/shyam/continuity/service.py:153-453 | transfers are a prefix of the artifacts in order to one target whose record was read as TRUSTED before them; the work is continued at most once, last, after every artifact was sent |
| `ContinuityTheorems.ResultAgrees` | src/shyam/continuity/service.py:396-552 | a finished session has a result matching its state, COMPLETED exactly when the target replied VERIFIED_SUCCESS and UNSUPPORTED exactly for a migration that is valid otherwise; it reports transfers as completed exactly when the target replied, and then the whole reply and the last transfer's id; a failure without a reply reports nothing as done and names the collaborator to blame |
| `ContinuityTheorems.TransferFlagExactly` | src/shyam/continuity/service.py:333-453 | a reported completion of the transfers is true exactly when every transfer was answered COMPLETED; a denied one is untrue exactly when they all were and the continuation raised |
| `ContinuityRouting.RoutedInEveryRun` | src/shyam/continuity/service.py:227-415 | in every interleaving a session with a target was answered with it by the navigator, and every trust read, transfer and continuation goes to the chosen node, to the first non-empty peer or the node's id, and to the first non-empty url or none |
| `ContinuityRouting.AnswersAreRecorded` | src/shyam/continuity/service.py:283-453 | in every interleaving the answer recorded with a session's k-th call is the one the collaborator gave when k calls had been made |
| `ContinuityRouting.PipelineRouted` | src/shyam/continuity/service.py:153-453 | the same of one uninterrupted request and its collaborators; RequestContinuity ensures it |
| `ContinuitySystem.AlwaysConsistent` | src/shyam/continuity/service.py:108-149 | in every interleaving, also while calls are in flight, every session keeps the discipline, and its calls are its part of the common trace |
| `ContinuitySystem.AuthorizedInEveryRun` | src/shyam/continuity/service.py:171-174 | in every interleaving a session stored as AUTHORIZED has its trust verified exactly when its read has been answered, and then the answer was TRUSTED |
| `ContinuitySystem.AuthorizedBeforeTrust` | src/shyam/continuity/service.py:171-174 | a request that can be validated and gets a target is stored as AUTHORIZED, in a run, with its trust not verified and nothing read |
| `ContinuitySystem.AtMostOneLive` | src/shyam/continuity/service.py:108-121 | every session of a work id other than the indexed one is terminal, so at most one is live |
| `ContinuitySystem.RefusedExactly` | src/shyam/continuity/service.py:108-121 | a request is refused, with nothing changed, exactly while a session of its work is live |
| `ContinuitySystem.InterleavingIsHarmless` | src/shyam/continuity/service.py:153-200 | a session does in company what it would do alone with the same answers |
| `ContinuitySystem.SessionsEnd` | src/shyam/continuity/state.py:42-109 | a terminal session stays as it is, and every session is terminal after nine stages more than it has artifacts |
| `ContinuityPipeline.PipelineIsStages` | src/shyam/continuity/service.py:153-200 | the uninterrupted pipeline is a sequence of those stages, with its collaborators' answers, that ends in a terminal state |
| `ContinuityPipeline.CompletesExactly` | src/shyam/continuity/service.py:153-503 | a request completes exactly when it is valid, a target is chosen and TRUSTED, no transfer raises or answers FAILED or CANCELLED, and the target replies VERIFIED_SUCCESS |
| `ContinuityPipeline.RunningTransfersReportedCompleted` | src/shyam/continuity/service.py:373-433 | transfers that are all still RUNNING are reported as completed |

## Left out

- Ed25519 and base64: a scheme is any functions with the property that a key verifies what it signed. That nobody else signs with a node's key is an assumption of `GatedRunIsNetworkRun` and `FactsAreThoseGiven` about the envelopes that arrive; `SyncNetwork` delivers only envelopes that were sent.
- JSON text: the canonical form stops at the normalized tree; its order is by code point, not the UTF-16 order of section 3.2.3 of RFC 8785; keys are strings.
- SyncService.SyncService.CreateSyncEnvelope: the timestamp and `payload.extra` are not in the envelope, and its lists are sets: a receiver ignores the first two and reads the lists as sets.
- SyncSigning.SignableCoversEverything: covers neither the timestamp nor `payload.extra`, nor the order and duplicates of lists, which do change the signed bytes in the source.
- Trust.TrustService.ListRecords: returns a set; the source lists the records in insertion order.
- Sets inside values: the source lists them in iteration order; the model writes capability sets and known ids in string order and claims nothing about other sets.
- Clocks, UUIDs, log lines, events of the trust, sync and bootstrap services: message, session and workflow ids are parameters that are fresh where it matters.
- Free text: error messages are kept where they name the case; a reason that a second cancel call changes while the engine reports cancelled steps is not modelled.
- Metadata values that are not text: the source's models refuse them inside the guarded part of target selection, which here is a navigator that raised.
- Node restart and `recover_device`: vectors live in memory and start at 0, and the sync theorems are for runs without restart and with distinct node ids.
- Atomicity: the answer to a call and what the session does with it up to its next stored state are one step; cancelling an asyncio task inside a call, and trust changed between the trust read and a later call, are outside.
- Bootstrap over a lossy or concurrent transport beyond "it raised or it replied", and replay of signed bootstrap requests.
- `json.dumps`, file formats, atomic replace and key files: the trust store is a map saved and loaded whole.
- Flux and Zarya clients, executors, UDP discovery, runtime start and stop, the command line and the user interface: plumbing behind the oracles.
- Registries of capabilities, providers, composites and nodes, readiness aggregation, the event bus: they would add only lookups. Event handlers are taken to see the published events one at a time and in order.
- The order in which `get_state` lists active work, and the descriptions and timestamps of activity entries.
- Validators of single fields (non-empty ids, namespaced capabilities, version strings, unique step ids of a workflow): the theorems hold with and without them.
