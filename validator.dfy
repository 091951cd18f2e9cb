/** The checks each dispatched action runs before it touches the store, in the order: missing parent,
    duplicate id, removal blocked by live children, identity mismatch. Ok means the mutation may proceed. */
module Validator {
  import opened Types
  import opened StateMachines
  import opened Tables

  function CheckConnectionAdd(st: RootState, c: Connection): (r: Outcome)
    ensures r == Ok <==> c.id !in st.connections
  {
    if c.id in st.connections then Fail(DuplicateId) else Ok
  }

  function CheckConnectionDrop(st: RootState, id: Id): (r: Outcome)
    ensures r == Ok <==> id in st.connections
  {
    if id !in st.connections then Fail(NotFound) else Ok
  }

  function CheckDefinitionAdd(st: RootState, d: PipelineDefinition): (r: Outcome)
    ensures r == Ok <==> d.id !in st.pipelineDefinitions
  {
    if d.id in st.pipelineDefinitions then Fail(DuplicateId) else Ok
  }

  /** A mapping is set once per executor; a definition only gains mappings for new executors. */
  function CheckSetMapping(st: RootState, definitionId: Id, executorId: Id): (r: Outcome)
    ensures r == Ok <==> definitionId in st.pipelineDefinitions && !HasMapping(st.pipelineDefinitions, definitionId, executorId)
  {
    if definitionId !in st.pipelineDefinitions then Fail(NotFound)
    else if executorId in st.pipelineDefinitions[definitionId].mappings then Fail(DuplicateId)
    else Ok
  }

  /** A pipeline instance needs its executor's connection and a definition mapped for that executor. */
  function CheckPipelineAdd(st: RootState, p: PipelineInstance): (r: Outcome)
    ensures r == Ok ==> PipelineParentsExist(st, p) && p.id !in st.pipelineInstances
    ensures p.executorId !in st.connections ==> r == Fail(MissingParent)
    ensures !HasMapping(st.pipelineDefinitions, p.definitionId, p.executorId) ==> r == Fail(MissingParent)
  {
    if !PipelineParentsExist(st, p) then Fail(MissingParent)
    else if p.id in st.pipelineInstances then Fail(DuplicateId)
    else Ok
  }

  /** Removal checks the id, then that no segment remains, then that the executor matches the stored one. */
  function CheckPipelineRemove(st: RootState, p: PipelineInstance): (r: Outcome)
    ensures r == Ok <==> p.id in st.pipelineInstances && st.pipelineInstances[p.id].segmentIds == {}
                         && st.pipelineInstances[p.id].executorId == p.executorId
  {
    if p.id !in st.pipelineInstances then Fail(NotFound)
    else if st.pipelineInstances[p.id].segmentIds != {} then Fail(ResourceInUse)
    else if st.pipelineInstances[p.id].executorId != p.executorId then Fail(IdentityMismatch)
    else Ok
  }

  function CheckWorkerAdd(st: RootState, w: Worker): (r: Outcome)
    ensures r == Ok <==> w.machineId in st.connections && w.id !in st.workers
    ensures w.machineId !in st.connections ==> r == Fail(MissingParent)
  {
    if w.machineId !in st.connections then Fail(MissingParent)
    else if w.id in st.workers then Fail(DuplicateId)
    else Ok
  }

  /** A worker holding any segment cannot be removed by a user. */
  function CheckWorkerRemove(st: RootState, w: Worker): (r: Outcome)
    ensures r == Ok <==> w.id in st.workers && st.workers[w.id].assignedSegmentIds == {}
                         && st.workers[w.id].machineId == w.machineId
  {
    if w.id !in st.workers then Fail(NotFound)
    else if st.workers[w.id].assignedSegmentIds != {} then Fail(ResourceInUse)
    else if st.workers[w.id].machineId != w.machineId then Fail(IdentityMismatch)
    else Ok
  }

  /** Every worker to activate must exist; otherwise none is activated. */
  function CheckWorkersActivate(st: RootState, ws: seq<Worker>): (r: Outcome)
    ensures r == Ok <==> forall i :: 0 <= i < |ws| ==> ws[i].id in st.workers
  {
    if forall i :: 0 <= i < |ws| ==> ws[i].id in st.workers then Ok else Fail(NotFound)
  }

  /** A segment needs its pipeline and its worker, and the worker must sit on the pipeline's connection. */
  function CheckSegmentAdd(st: RootState, s: SegmentInstance): (r: Outcome)
    ensures r == Ok <==> SegmentParentsExist(st, s) && s.id !in st.segmentInstances
  {
    if s.pipelineInstanceId !in st.pipelineInstances || s.workerId !in st.workers then Fail(MissingParent)
    else if s.id in st.segmentInstances then Fail(DuplicateId)
    else if st.workers[s.workerId].machineId != st.pipelineInstances[s.pipelineInstanceId].executorId then Fail(IdentityMismatch)
    else Ok
  }

  /** A segment's logical state may be set to the same or a later state, never an earlier one. */
  function CheckSegmentUpdateState(st: RootState, id: Id, requested: SegmentState): (r: Outcome)
    ensures r == Ok <==> id in st.segmentInstances && SegmentRank(st.segmentInstances[id].state) <= SegmentRank(requested)
    ensures id !in st.segmentInstances ==> r == Fail(NotFound)
  {
    if id !in st.segmentInstances then Fail(NotFound)
    else if SegmentStep(st.segmentInstances[id].state, requested) == Reject then Fail(InvalidStateTransition)
    else Ok
  }

  /** A segment may be removed once it is Completed or its actual status is Destroyed. */
  predicate Removable(s: SegmentInstance)
  {
    IsTerminal(s.state) || s.actualStatus == Destroyed
  }

  function CheckSegmentRemove(st: RootState, s: SegmentInstance): (r: Outcome)
    ensures r == Ok <==> s.id in st.segmentInstances && Removable(st.segmentInstances[s.id])
                         && st.segmentInstances[s.id].pipelineInstanceId == s.pipelineInstanceId
                         && st.segmentInstances[s.id].workerId == s.workerId
  {
    if s.id !in st.segmentInstances then Fail(NotFound)
    else if !Removable(st.segmentInstances[s.id]) then Fail(ResourceInUse)
    else if st.segmentInstances[s.id].pipelineInstanceId != s.pipelineInstanceId
         || st.segmentInstances[s.id].workerId != s.workerId then Fail(IdentityMismatch)
    else Ok
  }
  // ---------------------------------------------------------------- what each validation admits

  /** A connection is admitted exactly when adding it keeps the invariant and inserts an entry rather than
      replacing a stored connection. */
  lemma ConnectionAddAdmitsExactly(st: RootState, c: Connection)
    requires Consistent(st)
    ensures CheckConnectionAdd(st, c) == Ok <==>
              Consistent(AddConnection(st, c)) && |AddConnection(st, c).connections| == |st.connections| + 1
  {
    if CheckConnectionAdd(st, c) == Ok {
      AddConnectionConsistent(st, c);
    }
  }

  /** A definition is admitted exactly when adding it keeps the invariant and inserts an entry rather than
      replacing a stored definition (whose mappings live pipelines may use). */
  lemma DefinitionAddAdmitsExactly(st: RootState, d: PipelineDefinition)
    requires Consistent(st)
    ensures CheckDefinitionAdd(st, d) == Ok <==>
              Consistent(AddDefinition(st, d)) && |AddDefinition(st, d).pipelineDefinitions| == |st.pipelineDefinitions| + 1
  {
    if CheckDefinitionAdd(st, d) == Ok {
      AddDefinitionConsistent(st, d);
    }
  }

  /** A mapping is admitted exactly when its definition exists and setting it keeps the invariant and adds a
      mapping rather than replacing the one a pipeline may have been deployed with. */
  lemma SetMappingAdmitsExactly(st: RootState, definitionId: Id, executorId: Id, mapping: Mapping)
    requires Consistent(st)
    ensures CheckSetMapping(st, definitionId, executorId) == Ok <==>
              && definitionId in st.pipelineDefinitions
              && Consistent(SetMapping(st, definitionId, executorId, mapping))
              && |SetMapping(st, definitionId, executorId, mapping).pipelineDefinitions[definitionId].mappings|
                 == |st.pipelineDefinitions[definitionId].mappings| + 1
  {
    if CheckSetMapping(st, definitionId, executorId) == Ok {
      SetMappingConsistent(st, definitionId, executorId, mapping);
    }
  }

  /** A pipeline instance is admitted exactly when adding it keeps the invariant and inserts a new instance:
      the parent check is neither stricter nor looser than the invariant needs. */
  lemma PipelineAddAdmitsExactly(st: RootState, p: PipelineInstance)
    requires Consistent(st)
    ensures CheckPipelineAdd(st, p) == Ok <==>
              Consistent(AddPipeline(st, p)) && |AddPipeline(st, p).pipelineInstances| == |st.pipelineInstances| + 1
  {
    var after := AddPipeline(st, p);
    if CheckPipelineAdd(st, p) == Ok {
      AddPipelineConsistent(st, p);
    }
    if Consistent(after) {
      assert PipelineParentsExist(after, after.pipelineInstances[p.id]);
    }
  }

  /** A worker is admitted exactly when adding it keeps the invariant and inserts a new worker. */
  lemma WorkerAddAdmitsExactly(st: RootState, w: Worker)
    requires Consistent(st)
    ensures CheckWorkerAdd(st, w) == Ok <==>
              Consistent(AddWorker(st, w)) && |AddWorker(st, w).workers| == |st.workers| + 1
  {
    var after := AddWorker(st, w);
    if CheckWorkerAdd(st, w) == Ok {
      AddWorkerConsistent(st, w);
    }
    if Consistent(after) {
      assert after.workers[w.id].machineId in after.connections;
    }
  }

  /** A segment is admitted exactly when its pipeline and worker exist and attaching it keeps the invariant
      and inserts a new segment. */
  lemma SegmentAddAdmitsExactly(st: RootState, s: SegmentInstance)
    requires Consistent(st)
    ensures CheckSegmentAdd(st, s) == Ok <==>
              && s.pipelineInstanceId in st.pipelineInstances && s.workerId in st.workers
              && Consistent(AttachSegment(st, NewSegment(s)))
              && |AttachSegment(st, NewSegment(s)).segmentInstances| == |st.segmentInstances| + 1
  {
    if CheckSegmentAdd(st, s) == Ok {
      AttachSegmentConsistent(st, NewSegment(s));
    }
    if s.pipelineInstanceId in st.pipelineInstances && s.workerId in st.workers
       && Consistent(AttachSegment(st, NewSegment(s))) {
      var after := AttachSegment(st, NewSegment(s));
      assert SegmentParentsExist(after, after.segmentInstances[s.id]);
    }
  }

  /** Removing a pipeline instance is admitted exactly when the copy names the stored executor and the
      removal keeps the invariant, i.e. would leave no segment pointing at a missing pipeline. */
  lemma PipelineRemoveAdmitsExactly(st: RootState, p: PipelineInstance)
    requires Consistent(st)
    ensures CheckPipelineRemove(st, p) == Ok <==>
              && p.id in st.pipelineInstances && st.pipelineInstances[p.id].executorId == p.executorId
              && Consistent(RemovePipeline(st, p.id))
  {
    if CheckPipelineRemove(st, p) == Ok {
      RemovePipelineConsistent(st, p.id);
    }
    if p.id in st.pipelineInstances && Consistent(RemovePipeline(st, p.id)) {
      var after := RemovePipeline(st, p.id);
      forall k | k in st.segmentInstances
        ensures st.segmentInstances[k].pipelineInstanceId != p.id
      {
        assert SegmentParentsExist(after, after.segmentInstances[k]);
      }
      NoSegmentsLeft(st, p.id);
    }
  }

  /** Removing a worker is admitted exactly when the copy names the stored machine and the removal keeps
      the invariant, i.e. would leave no segment assigned to a missing worker. */
  lemma WorkerRemoveAdmitsExactly(st: RootState, w: Worker)
    requires Consistent(st)
    ensures CheckWorkerRemove(st, w) == Ok <==>
              && w.id in st.workers && st.workers[w.id].machineId == w.machineId
              && Consistent(RemoveWorker(st, w.id))
  {
    if CheckWorkerRemove(st, w) == Ok {
      RemoveWorkerConsistent(st, w.id);
    }
    if w.id in st.workers && Consistent(RemoveWorker(st, w.id)) {
      var after := RemoveWorker(st, w.id);
      forall k | k in st.segmentInstances
        ensures st.segmentInstances[k].workerId != w.id
      {
        assert SegmentParentsExist(after, after.segmentInstances[k]);
      }
      NoSegmentsAssigned(st, w.id);
    }
  }

  /** A drop is refused exactly when it would change nothing: in a consistent store nothing hangs off an
      unknown connection. */
  lemma ConnectionDropRefusesOnlyNoOps(st: RootState, c: Id)
    requires Consistent(st)
    ensures CheckConnectionDrop(st, c) == Ok <==> DropConnection(st, c) != st
  {
    var after := DropConnection(st, c);
    if c in st.connections {
      assert c !in after.connections;
    } else {
      assert after.connections == st.connections;
      assert after.pipelineInstances == st.pipelineInstances by {
        forall p | p in st.pipelineInstances
          ensures st.pipelineInstances[p].executorId != c
        {
          assert PipelineParentsExist(st, st.pipelineInstances[p]);
        }
      }
      assert after.workers == st.workers by {
        forall w | w in st.workers
          ensures st.workers[w].machineId != c
        {
        }
      }
      assert after.manifoldInstances == st.manifoldInstances by {
        forall m | m in st.manifoldInstances
          ensures st.manifoldInstances[m].pipelineInstanceId in after.pipelineInstances
        {
        }
      }
      assert after.segmentInstances == st.segmentInstances by {
        forall s | s in st.segmentInstances
          ensures st.segmentInstances[s].pipelineInstanceId in after.pipelineInstances
        {
          assert SegmentParentsExist(st, st.segmentInstances[s]);
        }
      }
    }
  }

  /** Reporting a segment Destroyed, or setting it Completed, makes its removal admissible; until one of
      them happens, removal is refused as in use. */
  lemma RemovalAdmittedOnceFinished(st: RootState, s: SegmentInstance)
    requires s.id in st.segmentInstances
    requires st.segmentInstances[s.id].pipelineInstanceId == s.pipelineInstanceId
    requires st.segmentInstances[s.id].workerId == s.workerId
    ensures var t := st.segmentInstances[s.id];
            CheckSegmentRemove(SetSegment(st, s.id, t.(actualStatus := ApplyActualReport(t.actualStatus, Destroyed))), s) == Ok
    ensures CheckSegmentRemove(SetSegment(st, s.id, st.segmentInstances[s.id].(state := Completed)), s) == Ok
    ensures !IsTerminal(st.segmentInstances[s.id].state) && st.segmentInstances[s.id].actualStatus != Destroyed
            ==> CheckSegmentRemove(st, s) == Fail(ResourceInUse)
  {
    var t := st.segmentInstances[s.id];
    assert ApplyActualReport(t.actualStatus, Destroyed) == Destroyed;
  }

  /** Once admissible, removal stays admissible under any later actual-status report. */
  lemma RemovalSurvivesReports(st: RootState, s: SegmentInstance, reported: ActualStatus)
    requires CheckSegmentRemove(st, s) == Ok
    ensures var t := st.segmentInstances[s.id];
            CheckSegmentRemove(SetSegment(st, s.id, t.(actualStatus := ApplyActualReport(t.actualStatus, reported))), s) == Ok
  {
    var t := st.segmentInstances[s.id];
    var t1 := t.(actualStatus := ApplyActualReport(t.actualStatus, reported));
    assert SetSegment(st, s.id, t1).segmentInstances[s.id] == t1;
    if t.actualStatus == Destroyed {
      assert t1.actualStatus == Destroyed;
    } else {
      assert IsTerminal(t1.state);
    }
  }

  /** Once admissible, removal stays admissible under any logical-state update the store accepts. */
  lemma RemovalSurvivesStateUpdates(st: RootState, s: SegmentInstance, requested: SegmentState)
    requires CheckSegmentRemove(st, s) == Ok && CheckSegmentUpdateState(st, s.id, requested) == Ok
    ensures CheckSegmentRemove(SetSegment(st, s.id, st.segmentInstances[s.id].(state := requested)), s) == Ok
  {
    var t := st.segmentInstances[s.id];
    var t1 := t.(state := requested);
    assert SetSegment(st, s.id, t1).segmentInstances[s.id] == t1;
    if t.actualStatus != Destroyed {
      assert SegmentRank(requested) >= SegmentRank(Completed);
    }
  }
}
