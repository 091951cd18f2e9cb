/** The store and its dispatch: one method per action. Each method validates first and, on failure, leaves the
    store exactly as it was; on success it applies the mutation and every cascade it implies as one step. */
module Store {
  import opened Types
  import opened StateMachines
  import opened Tables
  import opened Validator
  import opened Cascade

  function IdsOf(ws: seq<Worker>): set<Id>
  {
    set i | 0 <= i < |ws| :: ws[i].id
  }

  /** The worker table after activating the workers with the given ids. */
  function ActivateAll(workers: map<Id, Worker>, ids: set<Id>): map<Id, Worker>
  {
    map k | k in workers :: if k in ids then workers[k].(state := Apply(workers[k].state, ActivateStep(workers[k].state)))
                            else workers[k]
  }

  /** Activating one more listed worker extends the activation of a prefix of the list by that worker. */
  lemma ActivateAllExtend(workers: map<Id, Worker>, ws: seq<Worker>, i: nat)
    requires i < |ws| && ws[i].id in workers
    ensures var a := ActivateAll(workers, IdsOf(ws[..i]));
            ws[i].id in a
            && ActivateAll(workers, IdsOf(ws[..i + 1]))
               == a[ws[i].id := a[ws[i].id].(state := Apply(a[ws[i].id].state, ActivateStep(a[ws[i].id].state)))]
  {
    assert IdsOf(ws[..i + 1]) == IdsOf(ws[..i]) + {ws[i].id};
  }

  /** Activation is admitted exactly when every listed worker ends up stored and Activated. */
  lemma ActivationAdmitsExactly(st: RootState, ws: seq<Worker>)
    ensures CheckWorkersActivate(st, ws) == Ok <==>
              forall i :: 0 <= i < |ws| ==>
                ws[i].id in ActivateAll(st.workers, IdsOf(ws)) && ActivateAll(st.workers, IdsOf(ws))[ws[i].id].state == Activated
  {
    var a := ActivateAll(st.workers, IdsOf(ws));
    if CheckWorkersActivate(st, ws) == Ok {
      forall i | 0 <= i < |ws|
        ensures ws[i].id in a && a[ws[i].id].state == Activated
      {
        assert ws[i].id in IdsOf(ws);
        ActivateIdempotent(st.workers[ws[i].id].state);
      }
    }
  }

  /** The store after an actual-status report on a pipeline instance: the status moves forward, and a report
      that crosses Created provisions one manifold instance per port of the pipeline's mapping. */
  function AfterPipelineReport(st: RootState, pid: Id, reported: ActualStatus): RootState
    requires Consistent(st) && pid in st.pipelineInstances
  {
    var cur := st.pipelineInstances[pid].actualStatus;
    var st1 := SetPipelineStatus(st, pid, ApplyActualReport(cur, reported));
    if ReachesCreated(cur, reported) then WithManifolds(st1, pid, MappingOf(st1, pid).manifoldPorts) else st1
  }

  /** The store right after an actual-status report on a manifold instance, before any segment provisioning. */
  function AfterManifoldReport(st: RootState, mid: Id, reported: ActualStatus): RootState
    requires mid in st.manifoldInstances
  {
    SetManifoldStatus(st, mid, ApplyActualReport(st.manifoldInstances[mid].actualStatus, reported))
  }

  /** A manifold report triggers segment provisioning when it crosses Created and leaves every manifold of
      the same pipeline Created. */
  predicate TriggersSegments(st: RootState, mid: Id, reported: ActualStatus)
    requires mid in st.manifoldInstances
  {
    var m := st.manifoldInstances[mid];
    ReachesCreated(m.actualStatus, reported) && AllManifoldsCreated(AfterManifoldReport(st, mid, reported), m.pipelineInstanceId)
  }

  function AfterSegmentReport(st: RootState, sid: Id, reported: ActualStatus): RootState
    requires sid in st.segmentInstances
  {
    var s := st.segmentInstances[sid];
    SetSegment(st, sid, s.(actualStatus := ApplyActualReport(s.actualStatus, reported)))
  }

  /** after is before with the report on manifold mid applied and, when that report triggers it, one segment
      provisioned per segment name of the pipeline's mapping. */
  ghost predicate ManifoldReportApplied(before: RootState, after: RootState, mid: Id, reported: ActualStatus)
    requires Consistent(before) && mid in before.manifoldInstances
  {
    var st1 := AfterManifoldReport(before, mid, reported);
    var pid := before.manifoldInstances[mid].pipelineInstanceId;
    pid in st1.pipelineInstances
    && (if TriggersSegments(before, mid, reported)
        then SegmentsProvisioned(st1, after, pid, MappingOf(st1, pid).segmentNames)
        else after == st1)
  }

  predicate ResourceExists(st: RootState, kind: ResourceKind, id: Id)
  {
    match kind
    case PipelineInstances => id in st.pipelineInstances
    case ManifoldInstances => id in st.manifoldInstances
    case SegmentInstances => id in st.segmentInstances
  }

  class Store {
    var state: RootState

    ghost predicate Valid()
      reads this
    {
      Consistent(state)
    }

    /** A clean store, as setupStore() gives. */
    constructor ()
      ensures Valid() && state == EmptyState()
    {
      state := EmptyState();
      EmptyConsistent();
    }

    /** The root state the selectors read, as store.getState() gives. */
    function GetState(): RootState
      reads this
    {
      state
    }

    method ConnectionsAdd(c: Connection) returns (r: Outcome)
      requires Valid()
      modifies this
      ensures Valid()
      ensures r == CheckConnectionAdd(old(state), c)
      ensures state == if r.Ok? then AddConnection(old(state), c) else old(state)
    {
      r := CheckConnectionAdd(state, c);
      if r.Ok? {
        AddConnectionConsistent(state, c);
        state := AddConnection(state, c);
      }
    }

    /** Dropping a connection tears down its pipelines, their manifolds and segments, and its workers. */
    method ConnectionsDropOne(id: Id) returns (r: Outcome)
      requires Valid()
      modifies this
      ensures Valid()
      ensures r == CheckConnectionDrop(old(state), id)
      ensures state == if r.Ok? then DropConnection(old(state), id) else old(state)
    {
      r := CheckConnectionDrop(state, id);
      if r.Ok? {
        DropConnectionConsistent(state, id);
        state := DropConnection(state, id);
      }
    }

    method PipelineDefinitionsAdd(d: PipelineDefinition) returns (r: Outcome)
      requires Valid()
      modifies this
      ensures Valid()
      ensures r == CheckDefinitionAdd(old(state), d)
      ensures state == if r.Ok? then AddDefinition(old(state), d) else old(state)
    {
      r := CheckDefinitionAdd(state, d);
      if r.Ok? {
        AddDefinitionConsistent(state, d);
        state := AddDefinition(state, d);
      }
    }

    method PipelineDefinitionsSetMapping(definitionId: Id, executorId: Id, mapping: Mapping) returns (r: Outcome)
      requires Valid()
      modifies this
      ensures Valid()
      ensures r == CheckSetMapping(old(state), definitionId, executorId)
      ensures r.Fail? ==> state == old(state)
      ensures r.Ok? ==> (definitionId in old(state).pipelineDefinitions
                         && state == SetMapping(old(state), definitionId, executorId, mapping))
    {
      r := CheckSetMapping(state, definitionId, executorId);
      if r.Ok? {
        SetMappingConsistent(state, definitionId, executorId, mapping);
        state := SetMapping(state, definitionId, executorId, mapping);
      }
    }

    method PipelineInstancesAdd(p: PipelineInstance) returns (r: Outcome)
      requires Valid()
      modifies this
      ensures Valid()
      ensures r == CheckPipelineAdd(old(state), p)
      ensures state == if r.Ok? then AddPipeline(old(state), p) else old(state)
    {
      r := CheckPipelineAdd(state, p);
      if r.Ok? {
        AddPipelineConsistent(state, p);
        state := AddPipeline(state, p);
      }
    }

    method PipelineInstancesRemove(p: PipelineInstance) returns (r: Outcome)
      requires Valid()
      modifies this
      ensures Valid()
      ensures r == CheckPipelineRemove(old(state), p)
      ensures state == if r.Ok? then RemovePipeline(old(state), p.id) else old(state)
    {
      r := CheckPipelineRemove(state, p);
      if r.Ok? {
        RemovePipelineConsistent(state, p.id);
        state := RemovePipeline(state, p.id);
      }
    }

    method WorkersAdd(w: Worker) returns (r: Outcome)
      requires Valid()
      modifies this
      ensures Valid()
      ensures r == CheckWorkerAdd(old(state), w)
      ensures state == if r.Ok? then AddWorker(old(state), w) else old(state)
    {
      r := CheckWorkerAdd(state, w);
      if r.Ok? {
        AddWorkerConsistent(state, w);
        state := AddWorker(state, w);
      }
    }

    method WorkersRemove(w: Worker) returns (r: Outcome)
      requires Valid()
      modifies this
      ensures Valid()
      ensures r == CheckWorkerRemove(old(state), w)
      ensures state == if r.Ok? then RemoveWorker(old(state), w.id) else old(state)
    {
      r := CheckWorkerRemove(state, w);
      if r.Ok? {
        RemoveWorkerConsistent(state, w.id);
        state := RemoveWorker(state, w.id);
      }
    }

    /** Activates every listed worker; re-activating an Activated worker is a no-op. */
    method WorkersActivate(ws: seq<Worker>) returns (r: Outcome)
      requires Valid()
      modifies this
      ensures Valid()
      ensures r == CheckWorkersActivate(old(state), ws)
      ensures state == if r.Ok? then old(state).(workers := ActivateAll(old(state).workers, IdsOf(ws))) else old(state)
    {
      r := CheckWorkersActivate(state, ws);
      if r.Fail? {
        return;
      }
      ghost var st0 := state;
      var i := 0;
      while i < |ws|
        invariant 0 <= i <= |ws|
        invariant Valid()
        invariant state == st0.(workers := ActivateAll(st0.workers, IdsOf(ws[..i])))
      {
        var id := ws[i].id;
        var w := state.workers[id];
        var next := Apply(w.state, ActivateStep(w.state));
        ActivateAllExtend(st0.workers, ws, i);
        SetWorkerStateConsistent(state, id, next);
        state := SetWorkerState(state, id, next);
        i := i + 1;
      }
      assert ws[..|ws|] == ws;
    }

    method SegmentInstancesAdd(s: SegmentInstance) returns (r: Outcome)
      requires Valid()
      modifies this
      ensures Valid()
      ensures r == CheckSegmentAdd(old(state), s)
      ensures state == if r.Ok? then AttachSegment(old(state), NewSegment(s)) else old(state)
    {
      r := CheckSegmentAdd(state, s);
      if r.Ok? {
        AttachSegmentConsistent(state, NewSegment(s));
        state := AttachSegment(state, NewSegment(s));
      }
    }

    method SegmentInstancesRemove(s: SegmentInstance) returns (r: Outcome)
      requires Valid()
      modifies this
      ensures Valid()
      ensures r == CheckSegmentRemove(old(state), s)
      ensures r.Fail? ==> state == old(state)
      ensures r.Ok? ==> (SegmentParentsExist(old(state), old(state).segmentInstances[s.id])
                         && state == DetachSegment(old(state), s.id))
    {
      r := CheckSegmentRemove(state, s);
      if r.Ok? {
        DetachSegmentConsistent(state, s.id);
        state := DetachSegment(state, s.id);
      }
    }

    /** Logical state of a segment: forward moves apply, a repeat is a no-op, a backward move is rejected. */
    method SegmentInstancesUpdateState(id: Id, requested: SegmentState) returns (r: Outcome)
      requires Valid()
      modifies this
      ensures Valid()
      ensures r == CheckSegmentUpdateState(old(state), id, requested)
      ensures r.Fail? ==> state == old(state)
      ensures r.Ok? ==> (id in old(state).segmentInstances
                         && state == SetSegment(old(state), id, old(state).segmentInstances[id].(state := requested)))
    {
      r := CheckSegmentUpdateState(state, id, requested);
      if r.Fail? {
        return;
      }
      var s := state.segmentInstances[id];
      SetSegmentConsistent(state, id, s.(state := requested));
      state := SetSegment(state, id, s.(state := requested));
    }

    method PipelineInstancesUpdateResourceActualState(id: Id, reported: ActualStatus) returns (r: Outcome)
      requires Valid()
      modifies this
      ensures Valid()
      ensures r == if id in old(state).pipelineInstances then Ok else Fail(NotFound)
      ensures state == if r.Ok?
        then SetPipelineStatus(old(state), id, ApplyActualReport(old(state).pipelineInstances[id].actualStatus, reported))
        else old(state)
    {
      if id !in state.pipelineInstances {
        return Fail(NotFound);
      }
      var next := ApplyActualReport(state.pipelineInstances[id].actualStatus, reported);
      SetPipelineStatusConsistent(state, id, next);
      state := SetPipelineStatus(state, id, next);
      r := Ok;
    }

    method ManifoldInstancesUpdateResourceActualState(id: Id, reported: ActualStatus) returns (r: Outcome)
      requires Valid()
      modifies this
      ensures Valid()
      ensures r == if id in old(state).manifoldInstances then Ok else Fail(NotFound)
      ensures state == if r.Ok? then AfterManifoldReport(old(state), id, reported) else old(state)
    {
      if id !in state.manifoldInstances {
        return Fail(NotFound);
      }
      var next := ApplyActualReport(state.manifoldInstances[id].actualStatus, reported);
      SetManifoldStatusConsistent(state, id, next);
      state := SetManifoldStatus(state, id, next);
      r := Ok;
    }

    method SegmentInstancesUpdateResourceActualState(id: Id, reported: ActualStatus) returns (r: Outcome)
      requires Valid()
      modifies this
      ensures Valid()
      ensures r == if id in old(state).segmentInstances then Ok else Fail(NotFound)
      ensures state == if r.Ok? then AfterSegmentReport(old(state), id, reported) else old(state)
    {
      if id !in state.segmentInstances {
        return Fail(NotFound);
      }
      var s := state.segmentInstances[id];
      var next := s.(actualStatus := ApplyActualReport(s.actualStatus, reported));
      SetSegmentConsistent(state, id, next);
      state := SetSegment(state, id, next);
      r := Ok;
    }

    /** Creates one manifold instance per port for pipeline pid, one at a time. */
    method ProvisionManifolds(pid: Id, ports: seq<string>)
      requires Valid() && pid in state.pipelineInstances
      modifies this
      ensures Valid()
      ensures state == WithManifolds(old(state), pid, ports)
    {
      ghost var st0 := state;
      var i := 0;
      while i < |ports|
        invariant 0 <= i <= |ports|
        invariant state == WithManifolds(st0, pid, ports[..i])
      {
        WithManifoldsExtend(st0, pid, ports, i);
        state := AttachManifold(state, pid, ports[i]);
        i := i + 1;
      }
      assert ports[..|ports|] == ports;
      WithManifoldsConsistent(st0, pid, ports);
    }

    /** Creates one segment instance per name for pipeline pid, each assigned to some worker on the
        pipeline's connection; when that connection has no worker, creates nothing. */
    method ProvisionSegments(pid: Id, names: seq<string>)
      requires Valid() && pid in state.pipelineInstances
      modifies this
      ensures Valid()
      ensures SegmentsProvisioned(old(state), state, pid, names)
    {
      var exec := state.pipelineInstances[pid].executorId;
      if !HasWorkerOn(state, exec) {
        NothingProvisioned(state, pid, names);
        return;
      }
      ProvisionEach(pid, names);
    }

    /** Provisions one segment per name, given a worker on the pipeline's connection. */
    method ProvisionEach(pid: Id, names: seq<string>)
      requires Valid() && pid in state.pipelineInstances
      requires HasWorkerOn(state, state.pipelineInstances[pid].executorId)
      modifies this
      ensures Valid() && pid in old(state).pipelineInstances
      ensures PartlyProvisioned(old(state), state, pid, names, |names|)
    {
      var exec := state.pipelineInstances[pid].executorId;
      ghost var w0 :| w0 in state.workers && state.workers[w0].machineId == exec;
      ghost var st0 := state;
      NothingProvisioned(state, pid, names);
      var i := 0;
      while i < |names|
        invariant 0 <= i <= |names|
        invariant Valid()
        invariant PartlyProvisioned(st0, state, pid, names, i)
        invariant w0 in state.workers && state.workers[w0].machineId == exec
        invariant state.pipelineInstances[pid].executorId == exec
      {
        ProvisionOne(st0, pid, names, i, w0);
        i := i + 1;
      }
    }

    /** Provisions segment i of names on some worker of the pipeline's connection. */
    method ProvisionOne(ghost st0: RootState, pid: Id, names: seq<string>, i: nat, ghost w0: Id)
      requires Valid() && pid in st0.pipelineInstances && i < |names|
      requires PartlyProvisioned(st0, state, pid, names, i)
      requires w0 in state.workers && state.workers[w0].machineId == state.pipelineInstances[pid].executorId
      modifies this
      ensures Valid() && PartlyProvisioned(st0, state, pid, names, i + 1)
      ensures w0 in state.workers && state.workers[w0].machineId == old(state).workers[w0].machineId
      ensures pid in state.pipelineInstances
      ensures state.pipelineInstances[pid].executorId == old(state).pipelineInstances[pid].executorId
    {
      var exec := state.pipelineInstances[pid].executorId;
      var w :| w in state.workers && state.workers[w].machineId == exec;
      var s := SegmentInstance(state.nextSegmentId, pid, w, names[i], Initialized, Unknown);
      ProvisionStep(st0, state, pid, names, i, w);
      AttachSegmentConsistent(state, s);
      AttachSegmentKeepsOwners(state, s, w0, pid);
      state := AttachSegment(state, s);
    }

    /** The resourceUpdateActualState dispatch: records the report on the resource of that kind and runs the
        cascade it triggers (manifolds for a pipeline reaching Created, segments once every manifold of a
        pipeline is Created). */
    method ResourceUpdateActualState(kind: ResourceKind, id: Id, reported: ActualStatus) returns (r: Outcome)
      requires Valid()
      modifies this
      ensures Valid()
      ensures r == if ResourceExists(old(state), kind, id) then Ok else Fail(NotFound)
      ensures r.Fail? ==> state == old(state)
      ensures r.Ok? && kind == PipelineInstances ==> state == AfterPipelineReport(old(state), id, reported)
      ensures r.Ok? && kind == ManifoldInstances ==> ManifoldReportApplied(old(state), state, id, reported)
      ensures r.Ok? && kind == SegmentInstances ==> state == AfterSegmentReport(old(state), id, reported)
    {
      match kind
      case PipelineInstances =>
        if id !in state.pipelineInstances {
          return Fail(NotFound);
        }
        var cur := state.pipelineInstances[id].actualStatus;
        r := PipelineInstancesUpdateResourceActualState(id, reported);
        if ReachesCreated(cur, reported) {
          ProvisionManifolds(id, MappingOf(state, id).manifoldPorts);
        }
      case ManifoldInstances =>
        if id !in state.manifoldInstances {
          return Fail(NotFound);
        }
        var trigger := TriggersSegments(state, id, reported);
        var pid := state.manifoldInstances[id].pipelineInstanceId;
        r := ManifoldInstancesUpdateResourceActualState(id, reported);
        if trigger {
          ProvisionSegments(pid, MappingOf(state, pid).segmentNames);
        }
      case SegmentInstances =>
        r := SegmentInstancesUpdateResourceActualState(id, reported);
    }
  }
}
