# Control-plane reconciliation store

The control plane keeps a normalized in-memory store with one table per kind of entity:
- Connections (live worker machines);
- PipelineDefinitions, each with one mapping per executor;
- PipelineInstances;
- ManifoldInstances;
- SegmentInstances;
- Workers.

Every change is an action dispatched to the store. The action validates its input and then mutates the tables. Reads go through selectors over the root state.

The slice implementations are not part of this model. Their contract is the one fixed by the two Jest suites `pipelineInstancesSlice.test.ts` and `workersSlice.test.ts`. This project models that contract and proves each test's expectation, for every fixture that fits the suites' default objects.

Modules, one per file:

- `Types`: the entities, as datatypes with `int` ids. Also the enums for actual status, worker state and segment state, the error kinds, and `Outcome` (`Ok | Fail(error)`). A dispatch the source makes throw returns `Fail` here.
- `StateMachines`: the transition tables for three things:
  - actual-status reports: forward only, and a repeat is a no-op;
  - worker activation: Registered to Activated, and idempotent;
  - segment logical state: forward or repeat; a backward request is rejected.
- `Tables`:
  - the root state, one `map<Id, _>` per kind plus the id counters for auto-created manifolds and segments;
  - the cross-table invariant `Consistent`. It says every entity sits under its own id and every parent reference exists, and that a segment's worker runs on its pipeline's connection. It also says `segmentIds` and `assignedSegmentIds` mirror the segment table exactly, and that ids stay below the counters;
  - the primitive edits, each with a lemma that it keeps the invariant.
- `Validator`: the validation each action runs before mutating, with lemmas relating each verdict to its effect: an add is admitted exactly when it keeps the invariant and inserts rather than replaces; a pipeline or worker removal exactly when the copy matches and removing keeps the invariant; a segment removal exactly when the copy matches and the segment is Completed or reported Destroyed; and a drop is refused exactly when it would change nothing.
- `Selectors`: `pipelineInstancesSelectAll/ById/Total`, `workersSelectAll/ById/Total`, `manifoldInstancesSelectByPipelineId` and `segmentInstancesSelectByPipelineId/ByWorkerId`, as pure functions, with lemmas relating them.
- `Cascade`: what an actual-status report provisions:
  - a pipeline instance reaching Created gets one manifold instance per port of its mapping;
  - once the last of its manifolds reaches Created, it gets one segment instance per segment name, each on some worker of the pipeline's connection.
- `Store`: the class `Store` with the field `state`. It has one method per dispatched action. Each method leaves `state` unchanged on `Fail`, and otherwise applies the edit and its cascades. The provisioning cascades are loops.
- `Scenarios`: one method per test, or per group of tests that share a setup. Each replays the dispatches on a fresh `Store`, and its postcondition is what the tests expect. `PipelineEmpty`, `PipelineSingleSelect`, `PipelineRemove` and `WorkersSingle` run their tests one after another on one store; this is sound because a refused dispatch leaves `state` unchanged, so each test still sees the state its own setup produced. The tests' `forEach` loops over manifolds and segments are `while` loops over the selected set.

## Model

| member | source | states |
|---|---|---|
| Scenarios.PipelineEmpty | ts/control-plane/src/server/store/slices/pipelineInstancesSlice.test.ts:34-45 | on a fresh store, select-all is empty, the total is 0 and removing any pipeline instance fails with NotFound |
| Scenarios.PipelineAddBeforeParents | ts/control-plane/src/server/store/slices/pipelineInstancesSlice.test.ts:47-59 | adding an instance fails with MissingParent before its connection exists, and again once the connection exists but no definition is mapped |
| Scenarios.SetupDefined | ts/control-plane/src/server/store/slices/pipelineInstancesSlice.test.ts:64-66 | connecting c and adding d leaves exactly c and d stored, in a consistent store |
| Scenarios.SetupMapped | ts/control-plane/src/server/store/slices/pipelineInstancesSlice.test.ts:64-73 | connecting c, adding d and mapping it for c leaves d carrying exactly that mapping |
| Scenarios.SetupSingle | ts/control-plane/src/server/store/slices/pipelineInstancesSlice.test.ts:63-91 | the "Single" setup leaves exactly c, d mapped for c with m, and p stored with status Unknown and no segments, in a consistent store |
| Scenarios.PipelineSingleSelect | ts/control-plane/src/server/store/slices/pipelineInstancesSlice.test.ts:93-115 | after connect, define, map and add: select-by-id finds the instance with the supplied id, definitionId and executorId and empty segmentIds; select-all is exactly that instance; the total is 1 |
| Scenarios.PipelineAddDuplicate | ts/control-plane/src/server/store/slices/pipelineInstancesSlice.test.ts:117-119 | adding the same instance again fails with DuplicateId |
| Scenarios.PipelineRemove | ts/control-plane/src/server/store/slices/pipelineInstancesSlice.test.ts:121-147 | removing an unknown id fails with NotFound; a copy naming another executor fails with IdentityMismatch; removing the stored instance succeeds and leaves none |
| Scenarios.PipelineDropConnection | ts/control-plane/src/server/store/slices/pipelineInstancesSlice.test.ts:149-153 | dropping the executor's connection succeeds and leaves no pipeline instance |
| Scenarios.SetupPipelineCreated | ts/control-plane/src/server/store/slices/pipelineInstancesSlice.test.ts:158-163 | adding worker w and reporting p Created leaves the "Single" state plus w, with p Created and one Unknown manifold of p per port of m, numbered from 0 in port order |
| Scenarios.SetupWithSegments | ts/control-plane/src/server/store/slices/pipelineInstancesSlice.test.ts:155-173 | adding the worker, reporting the pipeline Created, then reporting each of its manifolds Created leaves the pipeline holding segments whenever its mapping has ports and segment names |
| Scenarios.ReportManifoldCreated | ts/control-plane/src/server/store/slices/pipelineInstancesSlice.test.ts:168-172 | one manifold report of the loop keeps every not-yet-reported manifold stored and unreported; the last one provisions the pipeline's segments |
| Scenarios.PipelineContainsInstance | ts/control-plane/src/server/store/slices/pipelineInstancesSlice.test.ts:175-181 | after the cascade, every segment selected by the pipeline's id is in its segmentIds (the ids are exactly segmentIds) and in its worker's assignedSegmentIds, and there is at least one |
| Scenarios.ClearSegments | ts/control-plane/src/server/store/slices/pipelineInstancesSlice.test.ts:184-195 | reporting every selected segment Destroyed and then removing each succeeds every time, and leaves the pipeline's segmentIds empty |
| Scenarios.PipelineRemoveSegments | ts/control-plane/src/server/store/slices/pipelineInstancesSlice.test.ts:183-201 | after the segments are destroyed and removed, none remains in segmentIds, and removing the pipeline then succeeds and leaves none |
| Scenarios.PipelineRemoveBeforeSegment | ts/control-plane/src/server/store/slices/pipelineInstancesSlice.test.ts:203-208 | removing the pipeline while it holds segments fails with ResourceInUse |
| Scenarios.WorkersEmpty | ts/control-plane/src/server/store/slices/workersSlice.test.ts:32-49 | on a fresh store, no worker is selected, the total is 0, removing fails with NotFound and adding before the connection fails with MissingParent |
| Scenarios.SetupWorker | ts/control-plane/src/server/store/slices/workersSlice.test.ts:53-57 | connecting c and adding w leaves exactly c and w stored, w Registered with no segments |
| Scenarios.WorkersSingle | ts/control-plane/src/server/store/slices/workersSlice.test.ts:59-87 | the added worker is selected by id with the supplied id, machineId and workerAddress, Registered, with no assigned segments; select-all is exactly it; the total is 1; adding it again fails with DuplicateId |
| Scenarios.WorkersRemoveScenario | ts/control-plane/src/server/store/slices/workersSlice.test.ts:89-100 | removing an unknown id fails with NotFound; removing the worker succeeds and leaves none |
| Scenarios.WorkersActivateTwice | ts/control-plane/src/server/store/slices/workersSlice.test.ts:102-113 | activating succeeds and leaves the worker Activated; activating again also succeeds and leaves it Activated |
| Scenarios.WorkersConnectionDropped | ts/control-plane/src/server/store/slices/workersSlice.test.ts:115-119 | dropping the worker's connection succeeds and leaves no worker |
| Scenarios.SetupSingleWorker | ts/control-plane/src/server/store/slices/workersSlice.test.ts:53-57 | on top of the pipeline "Single" setup, adding w on c leaves that state plus w, Registered with no segments |
| Scenarios.SetupWorkerWithSegment | ts/control-plane/src/server/store/slices/workersSlice.test.ts:121-128 | after the segment is added, the worker's assignedSegmentIds and the pipeline's segmentIds are exactly that segment's id |
| Scenarios.WorkersContainsSegment | ts/control-plane/src/server/store/slices/workersSlice.test.ts:130-134 | the worker selected by id holds the segment's id in assignedSegmentIds |
| Scenarios.CompleteAndRemoveSegment | ts/control-plane/src/server/store/slices/workersSlice.test.ts:137-138 | marking the segment Completed and then removing it both succeed, and the worker holds no segment again |
| Scenarios.WorkersRemoveSegment | ts/control-plane/src/server/store/slices/workersSlice.test.ts:136-148 | once the segment is Completed and removed, its id is gone from assignedSegmentIds, and removing the worker succeeds and leaves none |
| Scenarios.WorkersRemoveBeforeSegment | ts/control-plane/src/server/store/slices/workersSlice.test.ts:150-155 | removing a worker that holds a segment fails with ResourceInUse |
| Validator.ConnectionAddAdmitsExactly | ts/control-plane/src/server/store/slices/workersSlice.test.ts:54 | in a consistent store, a connection is admitted exactly when adding it keeps the invariant and inserts an entry instead of replacing a stored one |
| Validator.ConnectionDropRefusesOnlyNoOps | ts/control-plane/src/server/store/slices/pipelineInstancesSlice.test.ts:149-153 | in a consistent store, a drop is refused exactly when it would change nothing: nothing hangs off an unknown connection |
| Validator.DefinitionAddAdmitsExactly | ts/control-plane/src/server/store/slices/pipelineInstancesSlice.test.ts:66 | in a consistent store, a definition is admitted exactly when adding it keeps the invariant and inserts an entry instead of replacing a stored one |
| Validator.SetMappingAdmitsExactly | ts/control-plane/src/server/store/slices/pipelineInstancesSlice.test.ts:68-73 | in a consistent store, a mapping is admitted exactly when its definition exists and setting it keeps the invariant and adds a mapping instead of replacing the one a pipeline may use |
| Validator.PipelineAddAdmitsExactly | ts/control-plane/src/server/store/slices/pipelineInstancesSlice.test.ts:47-59 | in a consistent store, a pipeline instance is admitted exactly when adding it keeps the invariant and inserts a new instance; so both a missing connection and a missing definition or mapping are refused, as is a duplicate |
| Validator.PipelineRemoveAdmitsExactly | ts/control-plane/src/server/store/slices/pipelineInstancesSlice.test.ts:121-147 | in a consistent store, removal is admitted exactly when the id is stored, the copy names the stored executor, and removing it keeps the invariant, i.e. no segment would be left pointing at it |
| Validator.WorkerAddAdmitsExactly | ts/control-plane/src/server/store/slices/workersSlice.test.ts:45-49 | in a consistent store, a worker is admitted exactly when adding it keeps the invariant and inserts a new worker; so a missing connection and a duplicate id are refused |
| Validator.WorkerRemoveAdmitsExactly | ts/control-plane/src/server/store/slices/workersSlice.test.ts:89-100 | in a consistent store, removal is admitted exactly when the id is stored, the copy names the stored machine, and removing it keeps the invariant, i.e. no segment would be left assigned to it |
| Validator.SegmentAddAdmitsExactly | ts/control-plane/src/server/store/slices/workersSlice.test.ts:124-127 | in a consistent store, a segment is admitted exactly when its pipeline and worker exist and attaching it keeps the invariant and inserts a new segment |
| Validator.RemovalAdmittedOnceFinished | ts/control-plane/src/server/store/slices/pipelineInstancesSlice.test.ts:186-191 | recording a Destroyed report on a segment, or setting it Completed, makes its removal admissible; before either, removal is refused as in use |
| Validator.RemovalSurvivesReports | ts/control-plane/src/server/store/slices/pipelineInstancesSlice.test.ts:186-191 | once a segment's removal is admissible, any later actual-status report leaves it admissible |
| Validator.RemovalSurvivesStateUpdates | ts/control-plane/src/server/store/slices/workersSlice.test.ts:137-138 | once a segment's removal is admissible, any logical-state update the store accepts leaves it admissible |
| Store.ActivationAdmitsExactly | ts/control-plane/src/server/store/slices/workersSlice.test.ts:102-113 | activation is admitted exactly when every listed worker ends up stored and Activated |
| Validator.CheckSegmentUpdateState | ts/control-plane/src/server/store/slices/workersSlice.test.ts:137 | a logical-state update is accepted exactly when the segment exists and the state does not move backwards; an unknown id gives NotFound |
| StateMachines.ApplyActualReport | ts/control-plane/src/server/store/slices/pipelineInstancesSlice.test.ts:161-163 | after a report the status is the old one or the reported one, and is behind neither |
| StateMachines.ActualReportIdempotent | ts/control-plane/src/server/store/slices/pipelineInstancesSlice.test.ts:186-190 | a second identical actual-status report changes nothing |
| StateMachines.CreatedCrossedOnce | ts/control-plane/src/server/store/slices/pipelineInstancesSlice.test.ts:161-172 | once a report crosses Created, no later report crosses it again, so each cascade fires once |
| StateMachines.ActivateIdempotent | ts/control-plane/src/server/store/slices/workersSlice.test.ts:108-113 | activating always ends in Activated, and activating again is a no-op |
| StateMachines.SegmentStepRejectsOnlyBackward | ts/control-plane/src/server/store/slices/workersSlice.test.ts:137 | a logical-state request is rejected exactly when it moves backwards, and applying it twice advances at most once |
| Selectors.ValuesCount | ts/control-plane/src/server/store/slices/pipelineInstancesSlice.test.ts:93-115 | a table whose entries carry their own key has as many distinct values as keys |
| Selectors.PipelineTotalIsSelectAllSize | ts/control-plane/src/server/store/slices/pipelineInstancesSlice.test.ts:93-115 | the pipeline total equals the number of instances select-all returns |
| Selectors.WorkerTotalIsSelectAllSize | ts/control-plane/src/server/store/slices/workersSlice.test.ts:59-83 | the worker total equals the number of workers select-all returns |
| Selectors.PipelineSelectByIdInSelectAll | ts/control-plane/src/server/store/slices/pipelineInstancesSlice.test.ts:93-111 | select-by-id finds an instance exactly when select-all holds one with that id, and then returns that one |
| Selectors.WorkerSelectByIdInSelectAll | ts/control-plane/src/server/store/slices/workersSlice.test.ts:59-79 | select-by-id finds a worker exactly when select-all holds one with that id, and then returns that one |
| Selectors.PipelineSegmentIdsMirrorSelect | ts/control-plane/src/server/store/slices/pipelineInstancesSlice.test.ts:175-181 | in a consistent store, a pipeline's segmentIds are exactly the ids of the segments selected by its id |
| Selectors.WorkerAssignedMirrorSelect | ts/control-plane/src/server/store/slices/workersSlice.test.ts:130-134 | in a consistent store, a worker's assignedSegmentIds are exactly the ids of the segments selected by its id |
| Tables.EmptyConsistent | ts/control-plane/src/server/store/slices/workersSlice.test.ts:28-30 | a clean store satisfies the invariant |
| Tables.NoSegmentsLeft | ts/control-plane/src/server/store/slices/pipelineInstancesSlice.test.ts:193-195 | a pipeline that no segment references holds no segment id |
| Tables.NoSegmentsAssigned | ts/control-plane/src/server/store/slices/workersSlice.test.ts:141-147 | a worker that no segment is assigned to holds no segment id |
| Tables.AddConnectionConsistent | ts/control-plane/src/server/store/slices/workersSlice.test.ts:54 | adding a connection with a new id keeps the invariant |
| Tables.AddDefinitionConsistent | ts/control-plane/src/server/store/slices/pipelineInstancesSlice.test.ts:66 | adding a definition with a new id keeps the invariant |
| Tables.SetMappingConsistent | ts/control-plane/src/server/store/slices/pipelineInstancesSlice.test.ts:68-73 | setting a definition's mapping keeps the invariant |
| Tables.AddPipelineConsistent | ts/control-plane/src/server/store/slices/pipelineInstancesSlice.test.ts:75 | adding a pipeline whose parents exist keeps the invariant |
| Tables.AddWorkerConsistent | ts/control-plane/src/server/store/slices/workersSlice.test.ts:56 | adding a worker whose connection exists keeps the invariant |
| Tables.AttachSegmentConsistent | ts/control-plane/src/server/store/slices/workersSlice.test.ts:127-134 | attaching a segment whose parents exist keeps the invariant: its id joins the pipeline's segmentIds and the worker's assignedSegmentIds |
| Tables.DetachSegmentConsistent | ts/control-plane/src/server/store/slices/workersSlice.test.ts:138-142 | detaching a segment keeps the invariant: its id leaves both mirrors |
| Tables.RemovePipelineConsistent | ts/control-plane/src/server/store/slices/pipelineInstancesSlice.test.ts:121-125 | removing a pipeline that holds no segment keeps the invariant |
| Tables.RemoveWorkerConsistent | ts/control-plane/src/server/store/slices/workersSlice.test.ts:89-93 | removing a worker that holds no segment keeps the invariant |
| Tables.DropConnectionConsistent | ts/control-plane/src/server/store/slices/pipelineInstancesSlice.test.ts:149-153 | dropping a connection and its pipelines, their manifolds and segments, and its workers leaves no dangling reference |
| Tables.DropConnectionForeignKeys | ts/control-plane/src/server/store/slices/workersSlice.test.ts:115-119 | after the drop, every remaining parent reference still exists |
| Tables.SetPipelineStatusConsistent | ts/control-plane/src/server/store/slices/pipelineInstancesSlice.test.ts:161-163 | recording a pipeline's actual status keeps the invariant |
| Tables.SetManifoldStatusConsistent | ts/control-plane/src/server/store/slices/pipelineInstancesSlice.test.ts:169-171 | recording a manifold's actual status keeps the invariant |
| Tables.SetSegmentConsistent | ts/control-plane/src/server/store/slices/pipelineInstancesSlice.test.ts:187-189 | rewriting a segment with the same id, pipeline and worker keeps the invariant |
| Tables.SetWorkerStateConsistent | ts/control-plane/src/server/store/slices/workersSlice.test.ts:103 | changing a worker's logical state keeps the invariant |
| Cascade.NewManifoldsOnePerPort | ts/control-plane/src/server/store/slices/pipelineInstancesSlice.test.ts:161-165 | a pipeline reaching Created gets exactly one manifold instance per port, named after it, all of that pipeline |
| Cascade.WithManifoldsConsistent | ts/control-plane/src/server/store/slices/pipelineInstancesSlice.test.ts:161-165 | provisioning manifolds keeps the invariant |
| Cascade.ProvisionedSegmentsRecorded | ts/control-plane/src/server/store/slices/pipelineInstancesSlice.test.ts:168-181 | after segment provisioning, the pipeline's segmentIds gained exactly the new ids, and each new segment is in its worker's assignedSegmentIds |
| Cascade.ProvisionStep | ts/control-plane/src/server/store/slices/pipelineInstancesSlice.test.ts:168-172 | attaching the next named segment on a worker of the pipeline's connection extends the provisioned prefix by one |
| Store.ActivateAllExtend | ts/control-plane/src/server/store/slices/workersSlice.test.ts:103 | activating one more listed worker extends the activation of a prefix of the list by that worker |
| Store.Store.constructor | ts/control-plane/src/server/store/slices/pipelineInstancesSlice.test.ts:30-32 | a new store is empty and consistent |
| Store.Store.ConnectionsAdd | ts/control-plane/src/server/store/slices/pipelineInstancesSlice.test.ts:54 | the validator's verdict is returned; on Ok the connection is added, otherwise nothing changes |
| Store.Store.ConnectionsDropOne | ts/control-plane/src/server/store/slices/pipelineInstancesSlice.test.ts:149-153 | on Ok the connection and everything under it is dropped, otherwise nothing changes; the invariant holds |
| Store.Store.PipelineDefinitionsAdd | ts/control-plane/src/server/store/slices/pipelineInstancesSlice.test.ts:66 | on Ok the definition is added, otherwise nothing changes |
| Store.Store.PipelineDefinitionsSetMapping | ts/control-plane/src/server/store/slices/pipelineInstancesSlice.test.ts:68-73 | on Ok the mapping is set for that executor, otherwise nothing changes |
| Store.Store.PipelineInstancesAdd | ts/control-plane/src/server/store/slices/pipelineInstancesSlice.test.ts:47-59 | on Ok the instance is stored with status Unknown and no segments, otherwise nothing changes |
| Store.Store.PipelineInstancesRemove | ts/control-plane/src/server/store/slices/pipelineInstancesSlice.test.ts:121-147 | on Ok the instance is removed, otherwise nothing changes |
| Store.Store.WorkersAdd | ts/control-plane/src/server/store/slices/workersSlice.test.ts:45-57 | on Ok the worker is stored Registered with no segments, otherwise nothing changes |
| Store.Store.WorkersRemove | ts/control-plane/src/server/store/slices/workersSlice.test.ts:89-100 | on Ok the worker is removed, otherwise nothing changes |
| Store.Store.WorkersActivate | ts/control-plane/src/server/store/slices/workersSlice.test.ts:102-113 | on Ok every listed worker is activated and nothing else changes; if any is missing, nothing changes |
| Store.Store.SegmentInstancesAdd | ts/control-plane/src/server/store/slices/workersSlice.test.ts:127 | on Ok the segment is attached and recorded on its pipeline and worker, otherwise nothing changes |
| Store.Store.SegmentInstancesRemove | ts/control-plane/src/server/store/slices/workersSlice.test.ts:138 | on Ok the segment is detached from its pipeline and worker, otherwise nothing changes |
| Store.Store.SegmentInstancesUpdateState | ts/control-plane/src/server/store/slices/workersSlice.test.ts:137 | on Ok the segment takes the requested logical state, otherwise nothing changes |
| Store.Store.PipelineInstancesUpdateResourceActualState | ts/control-plane/src/server/store/slices/pipelineInstancesSlice.test.ts:161-163 | an unknown pipeline gives NotFound and no change; otherwise its actual status moves forward to the report and nothing else changes |
| Store.Store.ManifoldInstancesUpdateResourceActualState | ts/control-plane/src/server/store/slices/pipelineInstancesSlice.test.ts:169-171 | an unknown manifold gives NotFound and no change; otherwise its actual status moves forward to the report and nothing else changes |
| Store.Store.SegmentInstancesUpdateResourceActualState | ts/control-plane/src/server/store/slices/pipelineInstancesSlice.test.ts:186-190 | an unknown segment gives NotFound and no change; otherwise the report is recorded |
| Store.Store.ProvisionManifolds | ts/control-plane/src/server/store/slices/pipelineInstancesSlice.test.ts:161-165 | creates one manifold instance per port, in port order, with fresh ids |
| Store.Store.ProvisionSegments | ts/control-plane/src/server/store/slices/pipelineInstancesSlice.test.ts:168-172 | creates one segment per name, each on a worker of the pipeline's connection, or none when there is no such worker |
| Store.Store.ResourceUpdateActualState | ts/control-plane/src/server/store/slices/pipelineInstancesSlice.test.ts:161-172 | an unknown resource gives NotFound and no change; a pipeline report crossing Created provisions its manifolds; a manifold report that leaves every manifold of its pipeline Created provisions the segments |

## Left out

- The slice sources (`pipelineInstancesSlice.ts`, `workersSlice.ts`, `segmentInstancesSlice.ts`, `connectionsSlice.ts`, `resourceActions.ts`, `store.ts`) are not part of this model. Every behaviour here comes from what the two suites dispatch and expect.
- The C++ data plane (`data_plane_resources.cpp`), codable `encode.hpp`/`decode.hpp`, the remote descriptor manager, the node service, the network resources and the client instance: network I/O, threads and foreign libraries, with no visible store logic.
- Protobuf encoding: `ResourceActualStatus`, `WorkerStates` and `SegmentStates` are plain enums.
- The `await` around a dispatch: each dispatch is one synchronous step.
- The suites use string ids in one place and numeric ids in another; the model uses `int` for every id.
- The worker-selection policy for an auto-created segment. The model picks any worker on the pipeline's connection, which is all the suites require.
- How many manifolds a mapping has. The model creates one per port of the executor's mapping, and every scenario holds for any mapping except the three listed below, which need at least one port and one segment name.
- The full actual-status ordering: the model assumes Unknown < Creating < Created < Running < Stopping < Destroyed. A report that does not move forward is a no-op. The suites use only Created and Destroyed.
- The workers suite's "With Segment" setup adds the pipeline without any definition or mapping. The pipeline suite expects exactly that add to throw. The model follows the pipeline suite: `Scenarios.SetupWorkerWithSegment` adds the definition and its mapping first.
- The pipeline suite's `defaultObjects` values are not part of this model. The scenarios hold for every connection, definition, mapping, pipeline, worker and segment that share ids the way the fixtures do. `Scenarios.PipelineFixture` also assumes the definition is submitted with no mapping yet, since the suite sets the executor's mapping itself right after adding the definition.
- Scenarios.PipelineContainsInstance: the suite's fixture has at least one port and one segment name; the model states "at least one segment" only under that condition.
- Scenarios.PipelineRemoveBeforeSegment: requires the mapping to have at least one port and one segment name, as the suite's fixture does; with either missing, no segment is provisioned and nothing holds the pipeline in use.
- Scenarios.SetupWithSegments: only states that the pipeline holds segments when the mapping has ports and segment names; with no manifold, the model provisions no segment, since no manifold report fires.
- Validator.CheckWorkerRemove: refuses removal while the worker holds any segment, even a Completed one, where a design could allow removing a worker whose segments are all terminal. The stricter rule keeps every segment's worker reference valid without a cascade that deletes the finished segments, which neither suite exercises: the workers suite removes the segment before the worker.
- Validator.CheckSegmentAdd: refuses, with IdentityMismatch, an explicit segment add whose worker is on a different connection from the segment's pipeline. Neither suite adds such a segment. The rule is part of the invariant so that dropping a connection, which removes its pipelines and workers, can never leave a segment pointing at a removed worker.
