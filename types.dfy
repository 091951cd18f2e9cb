/** Entities of the control plane's reconciliation store and the error kinds its dispatch reports. */
module Types {

  /** Ids are opaque and kind-scoped; the tests use both numbers and numeric strings, so one int type serves. */
  type Id = int

  datatype Option<T> = None | Some(value: T)

  /** Machine-reported provisioning status of a pipeline, manifold or segment instance. */
  datatype ActualStatus = Unknown | Creating | Created | Running | Stopping | Destroyed

  /** Logical state of a worker. */
  datatype WorkerState = Registered | Activated

  /** Logical state of a segment instance; Completed is the terminal state. */
  datatype SegmentState = Initialized | Running | Completed

  /** The three kinds of resource whose actual status `resourceUpdateActualState` reports. */
  datatype ResourceKind = PipelineInstances | ManifoldInstances | SegmentInstances

  datatype StoreError =
    | MissingParent          // a referenced connection, definition, mapping, pipeline or worker is absent
    | DuplicateId            // an entity of that kind already has the id
    | NotFound               // the entity to remove or update is absent
    | ResourceInUse          // removal blocked by live children
    | IdentityMismatch       // the supplied copy disagrees with the stored copy's parent reference
    | InvalidStateTransition // a logical state report that would move backwards

  /** What a dispatch returns: the source throws on failure, the model returns Fail. */
  datatype Outcome = Ok | Fail(error: StoreError)

  /** A live worker machine. */
  datatype Connection = Connection(id: Id, peerAddress: string)

  /** Executor-specific part of a pipeline definition: the manifold ports and the segments to run. */
  datatype Mapping = Mapping(manifoldPorts: seq<string>, segmentNames: seq<string>)

  /** A submitted pipeline with one mapping per executor (Connection id). */
  datatype PipelineDefinition = PipelineDefinition(id: Id, mappings: map<Id, Mapping>)

  /** A deployment of a definition on one connection; segmentIds is derived from the segment table. */
  datatype PipelineInstance = PipelineInstance(
    id: Id,
    definitionId: Id,
    executorId: Id,
    actualStatus: ActualStatus,
    segmentIds: set<Id>)

  /** A connection point of a pipeline instance, one per manifold port of its mapping. */
  datatype ManifoldInstance = ManifoldInstance(
    id: Id,
    pipelineInstanceId: Id,
    portName: string,
    actualStatus: ActualStatus)

  /** A unit of pipeline work, scoped to one pipeline instance and assigned to one worker. */
  datatype SegmentInstance = SegmentInstance(
    id: Id,
    pipelineInstanceId: Id,
    workerId: Id,
    name: string,
    state: SegmentState,
    actualStatus: ActualStatus)

  /** An execution agent on a connection; assignedSegmentIds is derived from the segment table. */
  datatype Worker = Worker(
    id: Id,
    machineId: Id,
    workerAddress: string,
    state: WorkerState,
    assignedSegmentIds: set<Id>)
}
