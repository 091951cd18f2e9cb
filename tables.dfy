/** The normalized entity tables of the store (the root state a dispatch replaces), the cross-table invariant
    they keep, and the primitive edits with the proof that each keeps the invariant. */
module Tables {
  import opened Types

  /** One table per entity kind, keyed by id, plus the counters that issue ids to auto-created instances. */
  datatype RootState = RootState(
    connections: map<Id, Connection>,
    pipelineDefinitions: map<Id, PipelineDefinition>,
    pipelineInstances: map<Id, PipelineInstance>,
    manifoldInstances: map<Id, ManifoldInstance>,
    segmentInstances: map<Id, SegmentInstance>,
    workers: map<Id, Worker>,
    nextManifoldId: Id,
    nextSegmentId: Id)

  function EmptyState(): (st: RootState)
    ensures st.pipelineInstances == map[] && st.workers == map[] && st.connections == map[]
  {
    RootState(map[], map[], map[], map[], map[], map[], 0, 0)
  }

  // ---------------------------------------------------------------- invariant

  /** No two entities of a kind share an id: every entity is stored under its own id. */
  ghost predicate KeysMatch(st: RootState)
  {
    && (forall k :: k in st.connections ==> st.connections[k].id == k)
    && (forall k :: k in st.pipelineDefinitions ==> st.pipelineDefinitions[k].id == k)
    && (forall k :: k in st.pipelineInstances ==> st.pipelineInstances[k].id == k)
    && (forall k :: k in st.manifoldInstances ==> st.manifoldInstances[k].id == k)
    && (forall k :: k in st.segmentInstances ==> st.segmentInstances[k].id == k)
    && (forall k :: k in st.workers ==> st.workers[k].id == k)
  }

  predicate HasMapping(defs: map<Id, PipelineDefinition>, definitionId: Id, executorId: Id)
  {
    definitionId in defs && executorId in defs[definitionId].mappings
  }

  /** The parents a pipeline instance needs: its executor connection and a definition mapped for it. */
  predicate PipelineParentsExist(st: RootState, p: PipelineInstance)
  {
    p.executorId in st.connections && HasMapping(st.pipelineDefinitions, p.definitionId, p.executorId)
  }

  /** The parents a segment needs: its pipeline and a worker on that pipeline's connection. */
  predicate SegmentParentsExist(st: RootState, s: SegmentInstance)
  {
    && s.pipelineInstanceId in st.pipelineInstances
    && s.workerId in st.workers
    && st.workers[s.workerId].machineId == st.pipelineInstances[s.pipelineInstanceId].executorId
  }

  /** Every parent reference points at an existing entity. */
  ghost predicate ForeignKeysExist(st: RootState)
  {
    && (forall p :: p in st.pipelineInstances ==> PipelineParentsExist(st, st.pipelineInstances[p]))
    && (forall w :: w in st.workers ==> st.workers[w].machineId in st.connections)
    && (forall m :: m in st.manifoldInstances ==> st.manifoldInstances[m].pipelineInstanceId in st.pipelineInstances)
    && (forall s :: s in st.segmentInstances ==> SegmentParentsExist(st, st.segmentInstances[s]))
  }

  /** A pipeline's segmentIds are exactly the segments that reference it. */
  ghost predicate SegmentIdsMirror(st: RootState)
  {
    && (forall p, s :: p in st.pipelineInstances && s in st.pipelineInstances[p].segmentIds ==>
          s in st.segmentInstances && st.segmentInstances[s].pipelineInstanceId == p)
    && (forall s :: s in st.segmentInstances && st.segmentInstances[s].pipelineInstanceId in st.pipelineInstances ==>
          s in st.pipelineInstances[st.segmentInstances[s].pipelineInstanceId].segmentIds)
  }

  /** A worker's assignedSegmentIds are exactly the segments assigned to it. */
  ghost predicate AssignedMirror(st: RootState)
  {
    && (forall w, s :: w in st.workers && s in st.workers[w].assignedSegmentIds ==>
          s in st.segmentInstances && st.segmentInstances[s].workerId == w)
    && (forall s :: s in st.segmentInstances && st.segmentInstances[s].workerId in st.workers ==>
          s in st.workers[st.segmentInstances[s].workerId].assignedSegmentIds)
  }

  /** The id counters are past every id in use, so the next auto-created instance gets a fresh id. */
  ghost predicate IdsBelowCounters(st: RootState)
  {
    && (forall m :: m in st.manifoldInstances ==> m < st.nextManifoldId)
    && (forall s :: s in st.segmentInstances ==> s < st.nextSegmentId)
  }

  ghost predicate Consistent(st: RootState)
  {
    KeysMatch(st) && ForeignKeysExist(st) && SegmentIdsMirror(st) && AssignedMirror(st) && IdsBelowCounters(st)
  }

  /** By the mirror, a pipeline no segment references holds no segment id. */
  lemma NoSegmentsLeft(st: RootState, pid: Id)
    requires SegmentIdsMirror(st) && pid in st.pipelineInstances
    requires forall k :: k in st.segmentInstances ==> st.segmentInstances[k].pipelineInstanceId != pid
    ensures st.pipelineInstances[pid].segmentIds == {}
  {
    var ids := st.pipelineInstances[pid].segmentIds;
    forall s | s in ids
      ensures s in st.segmentInstances && st.segmentInstances[s].pipelineInstanceId == pid
    {
    }
    assert forall s :: s !in ids;
  }

  /** By the mirror, a worker no segment is assigned to holds no segment id. */
  lemma NoSegmentsAssigned(st: RootState, wid: Id)
    requires AssignedMirror(st) && wid in st.workers
    requires forall k :: k in st.segmentInstances ==> st.segmentInstances[k].workerId != wid
    ensures st.workers[wid].assignedSegmentIds == {}
  {
    var ids := st.workers[wid].assignedSegmentIds;
    forall s | s in ids
      ensures s in st.segmentInstances && st.segmentInstances[s].workerId == wid
    {
    }
    assert forall s :: s !in ids;
  }

  /** Some member of a non-empty set. */
  lemma PickMember<T>(xs: set<T>) returns (x: T)
    requires xs != {}
    ensures x in xs
  {
    if forall y :: y !in xs {
      assert false;
    }
    x :| x in xs;
  }

  lemma EmptyConsistent()
    ensures Consistent(EmptyState())
  {
  }

  // ---------------------------------------------------------------- stored forms

  /** A pipeline instance as stored by an add: derived fields start empty, status Unknown. */
  function NewPipeline(p: PipelineInstance): PipelineInstance
  {
    p.(actualStatus := Unknown, segmentIds := {})
  }

  /** A worker as stored by an add: Registered, nothing assigned. */
  function NewWorker(w: Worker): Worker
  {
    w.(state := Registered, assignedSegmentIds := {})
  }

  /** A segment as stored by an add: its actual status is Unknown until its machine reports. */
  function NewSegment(s: SegmentInstance): SegmentInstance
  {
    s.(actualStatus := Unknown)
  }

  // ---------------------------------------------------------------- primitive edits

  function AddConnection(st: RootState, c: Connection): RootState
  {
    st.(connections := st.connections[c.id := c])
  }

  function AddDefinition(st: RootState, d: PipelineDefinition): RootState
  {
    st.(pipelineDefinitions := st.pipelineDefinitions[d.id := d])
  }

  /** Records the mapping of definition did for executor eid. */
  function SetMapping(st: RootState, did: Id, eid: Id, mapping: Mapping): RootState
    requires did in st.pipelineDefinitions
  {
    var d := st.pipelineDefinitions[did];
    st.(pipelineDefinitions := st.pipelineDefinitions[did := d.(mappings := d.mappings[eid := mapping])])
  }

  function AddPipeline(st: RootState, p: PipelineInstance): RootState
  {
    st.(pipelineInstances := st.pipelineInstances[p.id := NewPipeline(p)])
  }

  function AddWorker(st: RootState, w: Worker): RootState
  {
    st.(workers := st.workers[w.id := NewWorker(w)])
  }

  /** Stores a segment and records its id on its pipeline and on its worker. */
  function AttachSegment(st: RootState, s: SegmentInstance): RootState
    requires s.pipelineInstanceId in st.pipelineInstances && s.workerId in st.workers
  {
    var p := st.pipelineInstances[s.pipelineInstanceId];
    var w := st.workers[s.workerId];
    st.(segmentInstances := st.segmentInstances[s.id := s],
        pipelineInstances := st.pipelineInstances[s.pipelineInstanceId := p.(segmentIds := p.segmentIds + {s.id})],
        workers := st.workers[s.workerId := w.(assignedSegmentIds := w.assignedSegmentIds + {s.id})],
        nextSegmentId := if s.id < st.nextSegmentId then st.nextSegmentId else s.id + 1)
  }

  /** Deletes a segment and drops its id from its pipeline and from its worker. */
  function DetachSegment(st: RootState, sid: Id): RootState
    requires sid in st.segmentInstances && SegmentParentsExist(st, st.segmentInstances[sid])
  {
    var s := st.segmentInstances[sid];
    var p := st.pipelineInstances[s.pipelineInstanceId];
    var w := st.workers[s.workerId];
    st.(segmentInstances := st.segmentInstances - {sid},
        pipelineInstances := st.pipelineInstances[s.pipelineInstanceId := p.(segmentIds := p.segmentIds - {sid})],
        workers := st.workers[s.workerId := w.(assignedSegmentIds := w.assignedSegmentIds - {sid})])
  }

  /** Deletes a pipeline instance together with its manifold instances. */
  function RemovePipeline(st: RootState, pid: Id): RootState
  {
    st.(pipelineInstances := st.pipelineInstances - {pid},
        manifoldInstances := map m | m in st.manifoldInstances && st.manifoldInstances[m].pipelineInstanceId != pid
                                   :: st.manifoldInstances[m])
  }

  function RemoveWorker(st: RootState, wid: Id): RootState
  {
    st.(workers := st.workers - {wid})
  }

  /** The pipelines that survive the drop of connection c. */
  function PipelinesNotOn(pipelines: map<Id, PipelineInstance>, c: Id): map<Id, PipelineInstance>
  {
    map p | p in pipelines && pipelines[p].executorId != c :: pipelines[p]
  }

  /** Forced teardown of a connection: its pipelines (with their manifolds and segments) and its workers go,
      whatever segments they still hold. */
  function DropConnection(st: RootState, c: Id): RootState
  {
    var ps := PipelinesNotOn(st.pipelineInstances, c);
    st.(connections := st.connections - {c},
        pipelineInstances := ps,
        workers := map w | w in st.workers && st.workers[w].machineId != c :: st.workers[w],
        manifoldInstances := map m | m in st.manifoldInstances && st.manifoldInstances[m].pipelineInstanceId in ps
                                   :: st.manifoldInstances[m],
        segmentInstances := map s | s in st.segmentInstances && st.segmentInstances[s].pipelineInstanceId in ps
                                  :: st.segmentInstances[s])
  }

  /** Creates a manifold instance for one port of a pipeline, under the next manifold id. */
  function AttachManifold(st: RootState, pid: Id, port: string): RootState
  {
    var m := ManifoldInstance(st.nextManifoldId, pid, port, Unknown);
    st.(manifoldInstances := st.manifoldInstances[m.id := m], nextManifoldId := st.nextManifoldId + 1)
  }

  function SetPipelineStatus(st: RootState, pid: Id, status: ActualStatus): RootState
    requires pid in st.pipelineInstances
  {
    st.(pipelineInstances := st.pipelineInstances[pid := st.pipelineInstances[pid].(actualStatus := status)])
  }

  function SetManifoldStatus(st: RootState, mid: Id, status: ActualStatus): RootState
    requires mid in st.manifoldInstances
  {
    st.(manifoldInstances := st.manifoldInstances[mid := st.manifoldInstances[mid].(actualStatus := status)])
  }

  function SetSegment(st: RootState, sid: Id, s: SegmentInstance): RootState
  {
    st.(segmentInstances := st.segmentInstances[sid := s])
  }

  function SetWorkerState(st: RootState, wid: Id, state: WorkerState): RootState
    requires wid in st.workers
  {
    st.(workers := st.workers[wid := st.workers[wid].(state := state)])
  }

  // ---------------------------------------------------------------- each edit keeps the invariant

  lemma AddConnectionConsistent(st: RootState, c: Connection)
    requires Consistent(st) && c.id !in st.connections
    ensures Consistent(AddConnection(st, c))
  {
    AddConnectionKeys(st, c);
    AddConnectionForeignKeys(st, c);
  }

  lemma AddDefinitionConsistent(st: RootState, d: PipelineDefinition)
    requires Consistent(st) && d.id !in st.pipelineDefinitions
    ensures Consistent(AddDefinition(st, d))
  {
    AddDefinitionKeys(st, d);
    AddDefinitionForeignKeys(st, d);
  }

  /** Mappings are only ever added, so every pipeline keeps the mapping it was deployed with. */
  lemma SetMappingConsistent(st: RootState, did: Id, eid: Id, mapping: Mapping)
    requires Consistent(st) && did in st.pipelineDefinitions
    ensures Consistent(SetMapping(st, did, eid, mapping))
  {
    SetMappingKeys(st, did, eid, mapping);
    SetMappingForeignKeys(st, did, eid, mapping);
  }

  lemma AddPipelineConsistent(st: RootState, p: PipelineInstance)
    requires Consistent(st)
    requires PipelineParentsExist(st, p) && p.id !in st.pipelineInstances
    ensures Consistent(AddPipeline(st, p))
  {
    AddPipelineKeys(st, p);
    AddPipelineForeignKeys(st, p);
    AddPipelineSegmentIds(st, p);
    AddPipelineAssigned(st, p);
  }

  lemma AddWorkerConsistent(st: RootState, w: Worker)
    requires Consistent(st)
    requires w.machineId in st.connections && w.id !in st.workers
    ensures Consistent(AddWorker(st, w))
  {
    AddWorkerKeys(st, w);
    AddWorkerForeignKeys(st, w);
    AddWorkerSegmentIds(st, w);
    AddWorkerAssigned(st, w);
  }

  /** Attaching a segment whose parents exist keeps both back-reference sets exact. */
  lemma AttachSegmentConsistent(st: RootState, s: SegmentInstance)
    requires Consistent(st)
    requires SegmentParentsExist(st, s) && s.id !in st.segmentInstances
    ensures Consistent(AttachSegment(st, s))
    ensures AttachSegment(st, s).pipelineInstances[s.pipelineInstanceId].segmentIds
         == st.pipelineInstances[s.pipelineInstanceId].segmentIds + {s.id}
    ensures AttachSegment(st, s).workers[s.workerId].assignedSegmentIds
         == st.workers[s.workerId].assignedSegmentIds + {s.id}
  {
    AttachSegmentKeys(st, s);
    AttachSegmentForeignKeys(st, s);
    AttachSegmentSegmentIds(st, s);
    AttachSegmentAssigned(st, s);
  }

  /** Detaching a segment keeps both back-reference sets exact and removes its id from both. */
  lemma DetachSegmentConsistent(st: RootState, sid: Id)
    requires Consistent(st) && sid in st.segmentInstances
    ensures SegmentParentsExist(st, st.segmentInstances[sid])
    ensures Consistent(DetachSegment(st, sid))
    ensures forall p :: p in DetachSegment(st, sid).pipelineInstances ==>
              sid !in DetachSegment(st, sid).pipelineInstances[p].segmentIds
    ensures forall w :: w in DetachSegment(st, sid).workers ==>
              sid !in DetachSegment(st, sid).workers[w].assignedSegmentIds
  {
    assert SegmentParentsExist(st, st.segmentInstances[sid]);
    DetachSegmentKeys(st, sid);
    DetachSegmentForeignKeys(st, sid);
    DetachSegmentSegmentIds(st, sid);
    DetachSegmentAssigned(st, sid);
  }

  /** A pipeline without segments can go; its manifolds go with it. */
  lemma RemovePipelineConsistent(st: RootState, pid: Id)
    requires Consistent(st) && pid in st.pipelineInstances && st.pipelineInstances[pid].segmentIds == {}
    ensures Consistent(RemovePipeline(st, pid))
  {
    RemovePipelineKeys(st, pid);
    RemovePipelineForeignKeys(st, pid);
    RemovePipelineSegmentIds(st, pid);
    RemovePipelineAssigned(st, pid);
  }

  /** A worker with no assigned segments can go. */
  lemma RemoveWorkerConsistent(st: RootState, wid: Id)
    requires Consistent(st) && wid in st.workers && st.workers[wid].assignedSegmentIds == {}
    ensures Consistent(RemoveWorker(st, wid))
  {
    RemoveWorkerKeys(st, wid);
    RemoveWorkerForeignKeys(st, wid);
    RemoveWorkerSegmentIds(st, wid);
    RemoveWorkerAssigned(st, wid);
  }

  /** Dropping a connection leaves no dangling child: the invariant holds afterwards, no pipeline or worker
      on c remains, and every pipeline or worker on another connection stays. */
  lemma DropConnectionConsistent(st: RootState, c: Id)
    requires Consistent(st)
    ensures Consistent(DropConnection(st, c))
    ensures forall p :: p in DropConnection(st, c).pipelineInstances ==>
              DropConnection(st, c).pipelineInstances[p].executorId != c
    ensures forall w :: w in DropConnection(st, c).workers ==> DropConnection(st, c).workers[w].machineId != c
    ensures forall p :: p in st.pipelineInstances && st.pipelineInstances[p].executorId != c ==>
              p in DropConnection(st, c).pipelineInstances
    ensures forall w :: w in st.workers && st.workers[w].machineId != c ==> w in DropConnection(st, c).workers
  {
    DropConnectionKeys(st, c);
    DropConnectionForeignKeys(st, c);
    DropConnectionSegmentIds(st, c);
    DropConnectionAssigned(st, c);
  }

  lemma DropConnectionKeys(st: RootState, c: Id)
    requires KeysMatch(st) && IdsBelowCounters(st)
    ensures KeysMatch(DropConnection(st, c)) && IdsBelowCounters(DropConnection(st, c))
  {
  }

  lemma DropConnectionForeignKeys(st: RootState, c: Id)
    requires ForeignKeysExist(st)
    ensures ForeignKeysExist(DropConnection(st, c))
  {
    var st1 := DropConnection(st, c);
    forall s | s in st1.segmentInstances
      ensures SegmentParentsExist(st1, st1.segmentInstances[s])
    {
      var seg := st.segmentInstances[s];
      assert SegmentParentsExist(st, seg);
      assert st.workers[seg.workerId].machineId != c;
    }
  }

  lemma DropConnectionSegmentIds(st: RootState, c: Id)
    requires SegmentIdsMirror(st)
    ensures SegmentIdsMirror(DropConnection(st, c))
  {
  }

  lemma DropConnectionAssigned(st: RootState, c: Id)
    requires AssignedMirror(st) && ForeignKeysExist(st)
    ensures AssignedMirror(DropConnection(st, c))
  {
    var st1 := DropConnection(st, c);
    forall w, s | w in st1.workers && s in st1.workers[w].assignedSegmentIds
      ensures s in st1.segmentInstances && st1.segmentInstances[s].workerId == w
    {
      var seg := st.segmentInstances[s];
      assert SegmentParentsExist(st, seg);
    }
  }

  lemma AttachManifoldConsistent(st: RootState, pid: Id, port: string)
    requires Consistent(st) && pid in st.pipelineInstances
    ensures Consistent(AttachManifold(st, pid, port))
  {
  }

  lemma SetPipelineStatusConsistent(st: RootState, pid: Id, status: ActualStatus)
    requires Consistent(st) && pid in st.pipelineInstances
    ensures Consistent(SetPipelineStatus(st, pid, status))
  {
  }

  lemma SetManifoldStatusConsistent(st: RootState, mid: Id, status: ActualStatus)
    requires Consistent(st) && mid in st.manifoldInstances
    ensures Consistent(SetManifoldStatus(st, mid, status))
  {
  }

  /** Changing a segment's states in place keeps the invariant as long as its id and parents stay. */
  lemma SetSegmentConsistent(st: RootState, sid: Id, s: SegmentInstance)
    requires Consistent(st) && sid in st.segmentInstances
    requires s == st.segmentInstances[sid].(state := s.state, actualStatus := s.actualStatus)
    ensures Consistent(SetSegment(st, sid, s))
  {
  }

  lemma SetWorkerStateConsistent(st: RootState, wid: Id, state: WorkerState)
    requires Consistent(st) && wid in st.workers
    ensures Consistent(SetWorkerState(st, wid, state))
  {
  }

  // ---------------------------------------------------------------- the invariant part by part

  lemma AddPipelineKeys(st: RootState, p: PipelineInstance)
    requires KeysMatch(st) && IdsBelowCounters(st)
    requires PipelineParentsExist(st, p) && p.id !in st.pipelineInstances
    ensures KeysMatch(AddPipeline(st, p)) && IdsBelowCounters(AddPipeline(st, p))
  {
  }

  lemma AddPipelineForeignKeys(st: RootState, p: PipelineInstance)
    requires ForeignKeysExist(st)
    requires PipelineParentsExist(st, p) && p.id !in st.pipelineInstances
    ensures ForeignKeysExist(AddPipeline(st, p))
  {
  }

  lemma AddPipelineSegmentIds(st: RootState, p: PipelineInstance)
    requires SegmentIdsMirror(st) && ForeignKeysExist(st)
    requires PipelineParentsExist(st, p) && p.id !in st.pipelineInstances
    ensures SegmentIdsMirror(AddPipeline(st, p))
  {
  }

  lemma AddPipelineAssigned(st: RootState, p: PipelineInstance)
    requires AssignedMirror(st)
    requires PipelineParentsExist(st, p) && p.id !in st.pipelineInstances
    ensures AssignedMirror(AddPipeline(st, p))
  {
  }

  lemma AddWorkerKeys(st: RootState, w: Worker)
    requires KeysMatch(st) && IdsBelowCounters(st)
    requires w.machineId in st.connections && w.id !in st.workers
    ensures KeysMatch(AddWorker(st, w)) && IdsBelowCounters(AddWorker(st, w))
  {
  }

  lemma AddWorkerForeignKeys(st: RootState, w: Worker)
    requires ForeignKeysExist(st)
    requires w.machineId in st.connections && w.id !in st.workers
    ensures ForeignKeysExist(AddWorker(st, w))
  {
  }

  lemma AddWorkerSegmentIds(st: RootState, w: Worker)
    requires SegmentIdsMirror(st)
    requires w.machineId in st.connections && w.id !in st.workers
    ensures SegmentIdsMirror(AddWorker(st, w))
  {
  }

  lemma AddWorkerAssigned(st: RootState, w: Worker)
    requires AssignedMirror(st) && ForeignKeysExist(st)
    requires w.machineId in st.connections && w.id !in st.workers
    ensures AssignedMirror(AddWorker(st, w))
  {
  }

  lemma AttachSegmentKeys(st: RootState, s: SegmentInstance)
    requires KeysMatch(st) && IdsBelowCounters(st)
    requires SegmentParentsExist(st, s) && s.id !in st.segmentInstances
    ensures KeysMatch(AttachSegment(st, s)) && IdsBelowCounters(AttachSegment(st, s))
  {
  }

  lemma AttachSegmentForeignKeys(st: RootState, s: SegmentInstance)
    requires ForeignKeysExist(st)
    requires SegmentParentsExist(st, s) && s.id !in st.segmentInstances
    ensures ForeignKeysExist(AttachSegment(st, s))
  {
  }

  lemma AttachSegmentSegmentIds(st: RootState, s: SegmentInstance)
    requires SegmentIdsMirror(st)
    requires SegmentParentsExist(st, s) && s.id !in st.segmentInstances
    ensures SegmentIdsMirror(AttachSegment(st, s))
  {
  }

  lemma AttachSegmentAssigned(st: RootState, s: SegmentInstance)
    requires AssignedMirror(st)
    requires SegmentParentsExist(st, s) && s.id !in st.segmentInstances
    ensures AssignedMirror(AttachSegment(st, s))
  {
  }

  lemma DetachSegmentKeys(st: RootState, sid: Id)
    requires KeysMatch(st) && IdsBelowCounters(st)
    requires sid in st.segmentInstances && SegmentParentsExist(st, st.segmentInstances[sid])
    ensures KeysMatch(DetachSegment(st, sid)) && IdsBelowCounters(DetachSegment(st, sid))
  {
  }

  lemma DetachSegmentForeignKeys(st: RootState, sid: Id)
    requires ForeignKeysExist(st)
    requires sid in st.segmentInstances && SegmentParentsExist(st, st.segmentInstances[sid])
    ensures ForeignKeysExist(DetachSegment(st, sid))
  {
  }

  lemma DetachSegmentSegmentIds(st: RootState, sid: Id)
    requires SegmentIdsMirror(st)
    requires sid in st.segmentInstances && SegmentParentsExist(st, st.segmentInstances[sid])
    ensures SegmentIdsMirror(DetachSegment(st, sid))
  {
  }

  lemma DetachSegmentAssigned(st: RootState, sid: Id)
    requires AssignedMirror(st)
    requires sid in st.segmentInstances && SegmentParentsExist(st, st.segmentInstances[sid])
    ensures AssignedMirror(DetachSegment(st, sid))
  {
  }

  lemma RemovePipelineKeys(st: RootState, pid: Id)
    requires KeysMatch(st) && IdsBelowCounters(st)
    requires pid in st.pipelineInstances && st.pipelineInstances[pid].segmentIds == {}
    ensures KeysMatch(RemovePipeline(st, pid)) && IdsBelowCounters(RemovePipeline(st, pid))
  {
  }

  lemma RemovePipelineForeignKeys(st: RootState, pid: Id)
    requires ForeignKeysExist(st) && SegmentIdsMirror(st)
    requires pid in st.pipelineInstances && st.pipelineInstances[pid].segmentIds == {}
    ensures ForeignKeysExist(RemovePipeline(st, pid))
  {
    var st1 := RemovePipeline(st, pid);
    forall s | s in st1.segmentInstances
      ensures st1.segmentInstances[s].pipelineInstanceId != pid
    {
      assert SegmentParentsExist(st, st.segmentInstances[s]);
      assert s in st.pipelineInstances[st.segmentInstances[s].pipelineInstanceId].segmentIds;
    }
  }

  lemma RemovePipelineSegmentIds(st: RootState, pid: Id)
    requires SegmentIdsMirror(st)
    requires pid in st.pipelineInstances && st.pipelineInstances[pid].segmentIds == {}
    ensures SegmentIdsMirror(RemovePipeline(st, pid))
  {
  }

  lemma RemovePipelineAssigned(st: RootState, pid: Id)
    requires AssignedMirror(st)
    requires pid in st.pipelineInstances && st.pipelineInstances[pid].segmentIds == {}
    ensures AssignedMirror(RemovePipeline(st, pid))
  {
  }

  lemma RemoveWorkerKeys(st: RootState, wid: Id)
    requires KeysMatch(st) && IdsBelowCounters(st)
    requires wid in st.workers && st.workers[wid].assignedSegmentIds == {}
    ensures KeysMatch(RemoveWorker(st, wid)) && IdsBelowCounters(RemoveWorker(st, wid))
  {
  }

  lemma RemoveWorkerForeignKeys(st: RootState, wid: Id)
    requires ForeignKeysExist(st) && AssignedMirror(st)
    requires wid in st.workers && st.workers[wid].assignedSegmentIds == {}
    ensures ForeignKeysExist(RemoveWorker(st, wid))
  {
    forall s | s in st.segmentInstances
      ensures st.segmentInstances[s].workerId != wid
    {
      assert SegmentParentsExist(st, st.segmentInstances[s]);
      assert s in st.workers[st.segmentInstances[s].workerId].assignedSegmentIds;
    }
  }

  lemma RemoveWorkerSegmentIds(st: RootState, wid: Id)
    requires SegmentIdsMirror(st)
    requires wid in st.workers && st.workers[wid].assignedSegmentIds == {}
    ensures SegmentIdsMirror(RemoveWorker(st, wid))
  {
  }

  lemma RemoveWorkerAssigned(st: RootState, wid: Id)
    requires AssignedMirror(st)
    requires wid in st.workers && st.workers[wid].assignedSegmentIds == {}
    ensures AssignedMirror(RemoveWorker(st, wid))
  {
  }

  lemma AddConnectionKeys(st: RootState, c: Connection)
    requires KeysMatch(st) && IdsBelowCounters(st) && c.id !in st.connections
    ensures KeysMatch(AddConnection(st, c)) && IdsBelowCounters(AddConnection(st, c))
  {
  }

  lemma AddConnectionForeignKeys(st: RootState, c: Connection)
    requires ForeignKeysExist(st) && c.id !in st.connections
    ensures ForeignKeysExist(AddConnection(st, c))
  {
  }

  lemma AddDefinitionKeys(st: RootState, d: PipelineDefinition)
    requires KeysMatch(st) && IdsBelowCounters(st) && d.id !in st.pipelineDefinitions
    ensures KeysMatch(AddDefinition(st, d)) && IdsBelowCounters(AddDefinition(st, d))
  {
  }

  lemma AddDefinitionForeignKeys(st: RootState, d: PipelineDefinition)
    requires ForeignKeysExist(st) && d.id !in st.pipelineDefinitions
    ensures ForeignKeysExist(AddDefinition(st, d))
  {
  }

  lemma SetMappingKeys(st: RootState, did: Id, eid: Id, mapping: Mapping)
    requires KeysMatch(st) && IdsBelowCounters(st) && did in st.pipelineDefinitions
    ensures KeysMatch(SetMapping(st, did, eid, mapping)) && IdsBelowCounters(SetMapping(st, did, eid, mapping))
  {
  }

  lemma SetMappingForeignKeys(st: RootState, did: Id, eid: Id, mapping: Mapping)
    requires ForeignKeysExist(st) && did in st.pipelineDefinitions
    ensures ForeignKeysExist(SetMapping(st, did, eid, mapping))
  {
  }
}
