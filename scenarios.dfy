/** The behaviour the two slice suites check, replayed on a fresh store for every fixture that fits the
    suites' default objects. Each method is one test: it dispatches what the test dispatches and returns what
    the test inspects, and its postcondition is the test's expectation. A dispatch the test expects to throw
    returns Fail here; one the test expects to pass returns Ok. */
module Scenarios {
  import opened Types
  import opened StateMachines
  import opened Tables
  import opened Selectors
  import opened Validator
  import opened Cascade
  import opened Store

  /** The pipeline suite's default objects: pipeline p deploys definition d, which carries no mapping yet,
      on connection c. */
  predicate PipelineFixture(c: Connection, d: PipelineDefinition, p: PipelineInstance)
  {
    p.executorId == c.id && p.definitionId == d.id && d.mappings == map[]
  }

  /** The state after the pipeline suite's "Single" setup: c connected, d mapped for c with m, p added. */
  function SingleState(c: Connection, d: PipelineDefinition, m: Mapping, p: PipelineInstance): RootState
  {
    RootState(map[c.id := c], map[d.id := d.(mappings := map[c.id := m])], map[p.id := NewPipeline(p)],
              map[], map[], map[], 0, 0)
  }

  // ---------------------------------------------------------------- pipeline instances, empty store

  /** On an empty store nothing is selected, the total is 0 and removing any instance fails. */
  method PipelineEmpty(p: PipelineInstance) returns (all: set<PipelineInstance>, total: nat, removed: Outcome)
    ensures all == {} && total == 0
    ensures removed == Fail(NotFound)
  {
    var store := new Store();
    all := PipelineInstancesSelectAll(store.GetState());
    total := PipelineInstancesSelectTotal(store.GetState());
    removed := store.PipelineInstancesRemove(p);
  }

  /** Adding an instance fails before its connection exists, and still fails once the connection exists
      but no definition is mapped for it. */
  method PipelineAddBeforeParents(c: Connection, p: PipelineInstance) returns (beforeConnection: Outcome, beforeDefinition: Outcome)
    requires p.executorId == c.id
    ensures beforeConnection == Fail(MissingParent)
    ensures beforeDefinition == Fail(MissingParent)
  {
    var store := new Store();
    beforeConnection := store.PipelineInstancesAdd(p);
    var connected := store.ConnectionsAdd(c);
    beforeDefinition := store.PipelineInstancesAdd(p);
  }

  // ---------------------------------------------------------------- pipeline instances, one instance

  /** Connects c and adds d. */
  method SetupDefined(c: Connection, d: PipelineDefinition) returns (store: Store)
    ensures fresh(store) && store.Valid()
    ensures store.state == EmptyState().(connections := map[c.id := c], pipelineDefinitions := map[d.id := d])
  {
    store := new Store();
    var r := store.ConnectionsAdd(c);
    assert store.state == EmptyState().(connections := map[c.id := c]);
    r := store.PipelineDefinitionsAdd(d);
  }

  /** Connects c, adds d and maps d for c with m. */
  method SetupMapped(c: Connection, d: PipelineDefinition, m: Mapping) returns (store: Store)
    requires d.mappings == map[]
    ensures fresh(store) && store.Valid()
    ensures store.state == EmptyState().(connections := map[c.id := c],
                                         pipelineDefinitions := map[d.id := d.(mappings := map[c.id := m])])
  {
    store := SetupDefined(c, d);
    ghost var mapped := d.(mappings := map[c.id := m]);
    assert d.mappings[c.id := m] == map[c.id := m];
    assert map[d.id := d][d.id := mapped] == map[d.id := mapped];
    var r := store.PipelineDefinitionsSetMapping(d.id, c.id, m);
  }

  /** Connects c, adds d, maps d for c with m and adds p. */
  method SetupSingle(c: Connection, d: PipelineDefinition, m: Mapping, p: PipelineInstance) returns (store: Store)
    requires PipelineFixture(c, d, p)
    ensures fresh(store) && store.Valid()
    ensures store.state == SingleState(c, d, m, p)
  {
    store := SetupMapped(c, d, m);
    var r := store.PipelineInstancesAdd(p);
    assert r == Ok;
  }

  /** The added instance is the only one selected, with the supplied id, definition and executor and no
      segments, and the total is 1. */
  method PipelineSingleSelect(c: Connection, d: PipelineDefinition, m: Mapping, p: PipelineInstance)
      returns (all: set<PipelineInstance>, one: Option<PipelineInstance>, total: nat)
    requires PipelineFixture(c, d, p)
    ensures one.Some?
    ensures one.value.id == p.id && one.value.definitionId == p.definitionId && one.value.executorId == p.executorId
    ensures one.value.segmentIds == {}
    ensures all == {one.value}
    ensures total == 1
  {
    var store := SetupSingle(c, d, m, p);
    all := PipelineInstancesSelectAll(store.GetState());
    one := PipelineInstancesSelectById(store.GetState(), p.id);
    total := PipelineInstancesSelectTotal(store.GetState());
  }

  method PipelineAddDuplicate(c: Connection, d: PipelineDefinition, m: Mapping, p: PipelineInstance) returns (dup: Outcome)
    requires PipelineFixture(c, d, p)
    ensures dup == Fail(DuplicateId)
  {
    var store := SetupSingle(c, d, m, p);
    dup := store.PipelineInstancesAdd(p);
  }

  /** Removal fails for an unknown id and for a copy naming another executor, and succeeds for the stored
      instance, after which none is left. */
  method PipelineRemove(c: Connection, d: PipelineDefinition, m: Mapping, p: PipelineInstance, otherId: Id, otherExecutor: Id)
      returns (unknown: Outcome, mismatch: Outcome, valid: Outcome, all: set<PipelineInstance>)
    requires PipelineFixture(c, d, p)
    requires otherId != p.id && otherExecutor != p.executorId
    ensures unknown == Fail(NotFound)
    ensures mismatch == Fail(IdentityMismatch)
    ensures valid == Ok && all == {}
  {
    var store := SetupSingle(c, d, m, p);
    unknown := store.PipelineInstancesRemove(p.(id := otherId));
    mismatch := store.PipelineInstancesRemove(p.(executorId := otherExecutor));
    valid := store.PipelineInstancesRemove(p);
    all := PipelineInstancesSelectAll(store.GetState());
  }

  /** Dropping the executor's connection removes its pipeline instance. */
  method PipelineDropConnection(c: Connection, d: PipelineDefinition, m: Mapping, p: PipelineInstance)
      returns (dropped: Outcome, all: set<PipelineInstance>)
    requires PipelineFixture(c, d, p)
    ensures dropped == Ok && all == {}
  {
    var store := SetupSingle(c, d, m, p);
    dropped := store.ConnectionsDropOne(c.id);
    all := PipelineInstancesSelectAll(store.GetState());
  }

  /** The state once worker w is added and p is reported Created: p's manifolds exist, one per port of m,
      none of them reported yet. */
  function CreatedState(c: Connection, d: PipelineDefinition, m: Mapping, p: PipelineInstance, w: Worker): RootState
  {
    SingleState(c, d, m, p).(
      workers := map[w.id := NewWorker(w)],
      pipelineInstances := map[p.id := NewPipeline(p).(actualStatus := Created)],
      manifoldInstances := NewManifolds(p.id, m.manifoldPorts, 0),
      nextManifoldId := |m.manifoldPorts|)
  }

  /** On top of "Single", adds worker w and reports p Created, which provisions p's manifolds. */
  method SetupPipelineCreated(c: Connection, d: PipelineDefinition, m: Mapping, p: PipelineInstance, w: Worker)
      returns (store: Store)
    requires PipelineFixture(c, d, p) && WorkerFixture(c, w)
    ensures fresh(store) && store.Valid()
    ensures store.state == CreatedState(c, d, m, p, w)
  {
    store := SetupSingleWorker(c, d, m, p, w);
    PipelineCreatedReport(c, d, m, p, w);
    var r := store.ResourceUpdateActualState(PipelineInstances, p.id, Created);
  }

  /** "Single" with worker w added satisfies the store invariant. */
  lemma SingleWorkerConsistent(c: Connection, d: PipelineDefinition, m: Mapping, p: PipelineInstance, w: Worker)
    requires PipelineFixture(c, d, p) && WorkerFixture(c, w)
    ensures Consistent(SingleState(c, d, m, p).(workers := map[w.id := NewWorker(w)]))
  {
  }

  /** Reporting the freshly added pipeline Created provisions its manifolds. */
  lemma PipelineCreatedReport(c: Connection, d: PipelineDefinition, m: Mapping, p: PipelineInstance, w: Worker)
    requires PipelineFixture(c, d, p) && WorkerFixture(c, w)
    ensures var st := SingleState(c, d, m, p).(workers := map[w.id := NewWorker(w)]);
            Consistent(st) && p.id in st.pipelineInstances && AfterPipelineReport(st, p.id, Created) == CreatedState(c, d, m, p, w)
  {
    SingleWorkerConsistent(c, d, m, p, w);
    var st := SingleState(c, d, m, p).(workers := map[w.id := NewWorker(w)]);
    var st1 := SetPipelineStatus(st, p.id, Created);
    assert ReachesCreated(st.pipelineInstances[p.id].actualStatus, Created);
    assert MappingOf(st1, p.id) == m;
    assert map[] + NewManifolds(p.id, m.manifoldPorts, 0) == NewManifolds(p.id, m.manifoldPorts, 0);
  }

  /** The manifolds a pipeline Created report provisions for pipeline pid: stored under their own ids,
      all of pid and unreported. */
  predicate FreshManifolds(m0: map<Id, ManifoldInstance>, pid: Id)
  {
    forall k :: k in m0 ==> m0[k].id == k && m0[k].pipelineInstanceId == pid && m0[k].actualStatus == Unknown
  }

  /** While the setup reports the manifolds m0 of p Created one by one: the manifolds still in todo are
      unreported, the others are Created, and nothing else the setup relies on has moved. */
  ghost predicate Reporting(st: RootState, c: Connection, d: PipelineDefinition, m: Mapping, p: PipelineInstance,
                            w: Worker, m0: map<Id, ManifoldInstance>, todo: set<ManifoldInstance>)
  {
    && FreshManifolds(m0, p.id)
    && (forall mi :: mi in todo ==> mi in m0.Values)
    && st.manifoldInstances.Keys == m0.Keys
    && (forall k :: k in m0 ==>
          st.manifoldInstances[k] == m0[k].(actualStatus := if m0[k] in todo then Unknown else Created))
    && st.pipelineDefinitions == SingleState(c, d, m, p).pipelineDefinitions
    && st.pipelineInstances.Keys == {p.id}
    && st.pipelineInstances[p.id].executorId == c.id && st.pipelineInstances[p.id].definitionId == d.id
    && st.workers.Keys == {w.id} && st.workers[w.id].machineId == c.id
  }

  /** Before any manifold report, every manifold of p is selected and still to be reported; there is at
      least one when the mapping declares a port. */
  lemma ReportingStarts(c: Connection, d: PipelineDefinition, m: Mapping, p: PipelineInstance, w: Worker)
    requires PipelineFixture(c, d, p) && WorkerFixture(c, w)
    ensures var st := CreatedState(c, d, m, p, w);
            var todo := ManifoldInstancesSelectByPipelineId(st, p.id);
            Reporting(st, c, d, m, p, w, NewManifolds(p.id, m.manifoldPorts, 0), todo)
            && (|m.manifoldPorts| > 0 ==> todo != {})
  {
    var st := CreatedState(c, d, m, p, w);
    var m0 := NewManifolds(p.id, m.manifoldPorts, 0);
    var todo := ManifoldInstancesSelectByPipelineId(st, p.id);
    NewManifoldsOnePerPort(p.id, m.manifoldPorts, 0);
    forall k | k in m0
      ensures m0[k] in todo
    {
      assert m0[k] in m0.Values;
    }
    if |m.manifoldPorts| > 0 {
      assert m0[0] in todo;
    }
  }

  /** A manifold report, with or without the segment provisioning it triggers, changes only that manifold's
      status among the manifolds, and no definition, pipeline executor or worker connection. */
  lemma ManifoldReportFrame(before: RootState, after: RootState, mid: Id)
    requires Consistent(before) && mid in before.manifoldInstances
    requires ManifoldReportApplied(before, after, mid, Created)
    ensures after.manifoldInstances == AfterManifoldReport(before, mid, Created).manifoldInstances
    ensures after.pipelineDefinitions == before.pipelineDefinitions
    ensures after.pipelineInstances.Keys == before.pipelineInstances.Keys
    ensures forall q :: q in before.pipelineInstances ==>
              after.pipelineInstances[q].executorId == before.pipelineInstances[q].executorId
              && after.pipelineInstances[q].definitionId == before.pipelineInstances[q].definitionId
    ensures after.workers.Keys == before.workers.Keys
    ensures forall v :: v in before.workers ==> after.workers[v].machineId == before.workers[v].machineId
  {
    var st1 := AfterManifoldReport(before, mid, Created);
    if TriggersSegments(before, mid, Created) {
      assert OnlySegmentsChanged(st1, after);
    }
  }

  /** A manifold still to be reported is stored under its id, unreported. */
  lemma ReportingPending(st: RootState, c: Connection, d: PipelineDefinition, m: Mapping, p: PipelineInstance,
                         w: Worker, m0: map<Id, ManifoldInstance>, todo: set<ManifoldInstance>, mi: ManifoldInstance)
    requires Reporting(st, c, d, m, p, w, m0, todo) && mi in todo
    ensures mi.id in m0 && m0[mi.id] == mi
    ensures mi.id in st.manifoldInstances && st.manifoldInstances[mi.id] == mi
    ensures mi.pipelineInstanceId == p.id && mi.actualStatus == Unknown
  {
    var k := KeyOf(m0, mi);
  }

  /** Reporting one more manifold Created keeps the loop's picture. */
  lemma ReportingKept(c: Connection, d: PipelineDefinition, m: Mapping, p: PipelineInstance, w: Worker,
                      m0: map<Id, ManifoldInstance>, todo: set<ManifoldInstance>, mi: ManifoldInstance,
                      before: RootState, after: RootState)
    requires Consistent(before)
    requires Reporting(before, c, d, m, p, w, m0, todo) && mi in todo
    requires mi.id in before.manifoldInstances && ManifoldReportApplied(before, after, mi.id, Created)
    ensures Reporting(after, c, d, m, p, w, m0, todo - {mi})
  {
    ReportingPending(before, c, d, m, p, w, m0, todo, mi);
    var k := mi.id;
    ManifoldReportFrame(before, after, k);
    assert after.manifoldInstances == before.manifoldInstances[k := before.manifoldInstances[k].(actualStatus := Created)];
    forall j | j in m0
      ensures after.manifoldInstances[j] == m0[j].(actualStatus := if m0[j] in todo - {mi} then Unknown else Created)
    {
      assert m0[j].id == j;
    }
  }

  /** Reporting the last unreported manifold Created leaves every manifold of p Created, so it triggers the
      provisioning of one segment per segment name of m, on worker w's connection. */
  lemma LastManifoldTriggers(c: Connection, d: PipelineDefinition, m: Mapping, p: PipelineInstance, w: Worker,
                             m0: map<Id, ManifoldInstance>, mi: ManifoldInstance, before: RootState)
    requires Reporting(before, c, d, m, p, w, m0, {mi})
    ensures mi.id in before.manifoldInstances && before.manifoldInstances[mi.id].pipelineInstanceId == p.id
    ensures TriggersSegments(before, mi.id, Created)
    ensures var st1 := AfterManifoldReport(before, mi.id, Created);
            && p.id in st1.pipelineInstances
            && HasMapping(st1.pipelineDefinitions, st1.pipelineInstances[p.id].definitionId, st1.pipelineInstances[p.id].executorId)
            && MappingOf(st1, p.id) == m
            && ProvisionCount(st1, p.id, m.segmentNames) == |m.segmentNames|
  {
    ReportingPending(before, c, d, m, p, w, m0, {mi}, mi);
    var k := mi.id;
    var st1 := AfterManifoldReport(before, k, Created);
    forall j | j in st1.manifoldInstances && st1.manifoldInstances[j].pipelineInstanceId == p.id
      ensures ActualRank(st1.manifoldInstances[j].actualStatus) >= ActualRank(Created)
    {
      if j != k {
        assert m0[j].id == j;
      }
    }
    assert w.id in st1.workers && st1.workers[w.id].machineId == c.id;
  }

  /** Reporting the last unreported manifold Created provisions segments for p, provided the mapping
      declares one: the pipeline then holds a segment. */
  lemma LastManifoldProvisions(c: Connection, d: PipelineDefinition, m: Mapping, p: PipelineInstance, w: Worker,
                               m0: map<Id, ManifoldInstance>, mi: ManifoldInstance, before: RootState, after: RootState)
    requires Consistent(before) && SegmentIdsMirror(after) && AssignedMirror(after)
    requires Reporting(before, c, d, m, p, w, m0, {mi}) && |m.segmentNames| > 0
    requires mi.id in before.manifoldInstances && ManifoldReportApplied(before, after, mi.id, Created)
    ensures p.id in after.pipelineInstances && after.pipelineInstances[p.id].segmentIds != {}
  {
    LastManifoldTriggers(c, d, m, p, w, m0, mi, before);
    var st1 := AfterManifoldReport(before, mi.id, Created);
    SetManifoldStatusConsistent(before, mi.id, Created);
    ProvisionedSegmentsRecorded(st1, after, p.id, m.segmentNames);
    assert st1.nextSegmentId in IdRange(st1.nextSegmentId, |m.segmentNames|);
  }

  /** One manifold report keeps the loop's picture, and the last one leaves p holding segments. */
  lemma ReportingAdvances(c: Connection, d: PipelineDefinition, m: Mapping, p: PipelineInstance, w: Worker,
                          m0: map<Id, ManifoldInstance>, todo: set<ManifoldInstance>, mi: ManifoldInstance,
                          before: RootState, after: RootState)
    requires Consistent(before) && SegmentIdsMirror(after) && AssignedMirror(after)
    requires Reporting(before, c, d, m, p, w, m0, todo) && mi in todo
    requires mi.id in before.manifoldInstances && ManifoldReportApplied(before, after, mi.id, Created)
    ensures Reporting(after, c, d, m, p, w, m0, todo - {mi})
    ensures todo - {mi} == {} && |m.segmentNames| > 0 ==>
              p.id in after.pipelineInstances && after.pipelineInstances[p.id].segmentIds != {}
  {
    ReportingKept(c, d, m, p, w, m0, todo, mi, before, after);
    if todo - {mi} == {} && |m.segmentNames| > 0 {
      assert todo == {mi};
      LastManifoldProvisions(c, d, m, p, w, m0, mi, before, after);
    }
  }

  /** Dispatches the Created report for one manifold still to be reported. */
  method ReportManifoldCreated(store: Store, c: Connection, d: PipelineDefinition, m: Mapping, p: PipelineInstance,
                               w: Worker, ghost m0: map<Id, ManifoldInstance>, ghost todo: set<ManifoldInstance>,
                               mi: ManifoldInstance)
    requires store.Valid() && Reporting(store.state, c, d, m, p, w, m0, todo) && mi in todo
    modifies store
    ensures store.Valid() && Reporting(store.state, c, d, m, p, w, m0, todo - {mi})
    ensures todo - {mi} == {} && |m.segmentNames| > 0 ==> store.state.pipelineInstances[p.id].segmentIds != {}
  {
    ghost var before := store.state;
    ReportingPending(before, c, d, m, p, w, m0, todo, mi);
    var r := store.ResourceUpdateActualState(ManifoldInstances, mi.id, Created);
    ReportingAdvances(c, d, m, p, w, m0, todo, mi, before, store.state);
  }

  /** The pipeline suite's "With Segment Instance" setup: on top of "Single", adds worker w on c, reports p
      Created (which provisions its manifolds), then reports each of those manifolds Created (the last one
      provisions the segments). When the mapping declares at least one manifold port and one segment, the
      pipeline ends up holding segments. */
  method SetupWithSegments(c: Connection, d: PipelineDefinition, m: Mapping, p: PipelineInstance, w: Worker)
      returns (store: Store)
    requires PipelineFixture(c, d, p) && WorkerFixture(c, w)
    ensures fresh(store) && store.Valid()
    ensures store.state.pipelineInstances.Keys == {p.id} && store.state.pipelineInstances[p.id].executorId == c.id
    ensures store.state.workers.Keys == {w.id}
    ensures |m.manifoldPorts| > 0 && |m.segmentNames| > 0 ==> store.state.pipelineInstances[p.id].segmentIds != {}
  {
    store := SetupPipelineCreated(c, d, m, p, w);
    var manifolds := ManifoldInstancesSelectByPipelineId(store.GetState(), p.id);
    ReportingStarts(c, d, m, p, w);
    ghost var m0 := NewManifolds(p.id, m.manifoldPorts, 0);
    var todo := manifolds;
    while todo != {}
      invariant store.Valid()
      invariant Reporting(store.state, c, d, m, p, w, m0, todo)
      invariant todo == {} && |m.manifoldPorts| > 0 && |m.segmentNames| > 0 ==>
                  store.state.pipelineInstances[p.id].segmentIds != {}
      decreases todo
    {
      ghost var some := PickMember(todo);
      var mi :| mi in todo;
      ReportManifoldCreated(store, c, d, m, p, w, m0, todo, mi);
      todo := todo - {mi};
    }
  }

  /** After the cascade, every segment selected by the pipeline's id is in its segmentIds (and the ids
      selected are exactly those), and in the assignedSegmentIds of the one worker; there is at least one such
      segment when the mapping declares a manifold port and a segment. */
  method PipelineContainsInstance(c: Connection, d: PipelineDefinition, m: Mapping, p: PipelineInstance, w: Worker)
      returns (found: Option<PipelineInstance>, segments: set<SegmentInstance>, worker: Option<Worker>)
    requires PipelineFixture(c, d, p) && WorkerFixture(c, w)
    ensures found.Some? && worker.Some?
    ensures forall s :: s in segments ==> s.id in found.value.segmentIds && s.id in worker.value.assignedSegmentIds
    ensures SegmentIds(segments) == found.value.segmentIds
    ensures |m.manifoldPorts| > 0 && |m.segmentNames| > 0 ==> segments != {}
  {
    var store := SetupWithSegments(c, d, m, p, w);
    found := PipelineInstancesSelectById(store.GetState(), p.id);
    segments := SegmentInstancesSelectByPipelineId(store.GetState(), p.id);
    worker := WorkersSelectById(store.GetState(), w.id);
    PipelineSegmentIdsMirrorSelect(store.state, p.id);
    forall s | s in segments
      ensures s.id in worker.value.assignedSegmentIds
    {
      var k := KeyOf(store.state.segmentInstances, s);
      assert store.state.segmentInstances[k].workerId in store.state.workers;
    }
  }

  /** Removing the pipeline while it still holds segments fails. */
  method PipelineRemoveBeforeSegment(c: Connection, d: PipelineDefinition, m: Mapping, p: PipelineInstance, w: Worker)
      returns (removed: Outcome)
    requires PipelineFixture(c, d, p) && WorkerFixture(c, w)
    requires |m.manifoldPorts| > 0 && |m.segmentNames| > 0
    ensures removed == Fail(ResourceInUse)
  {
    var store := SetupWithSegments(c, d, m, p, w);
    removed := store.PipelineInstancesRemove(p);
  }

  /** The segments of s0 that are in segments but no longer in todo have been reported Destroyed; nothing
      else has changed in the segment table. */
  ghost predicate DestroyedSoFar(st: RootState, s0: map<Id, SegmentInstance>, segments: set<SegmentInstance>,
                                 todo: set<SegmentInstance>)
  {
    && (forall k :: k in s0 ==> s0[k].id == k)
    && st.segmentInstances.Keys == s0.Keys
    && forall k :: k in s0 ==>
         st.segmentInstances[k] == if s0[k] in segments && s0[k] !in todo then s0[k].(actualStatus := Destroyed) else s0[k]
  }

  method ReportDestroyedStep(store: Store, ghost s0: map<Id, SegmentInstance>, segments: set<SegmentInstance>,
                             ghost todo: set<SegmentInstance>, s: SegmentInstance) returns (r: Outcome)
    requires store.Valid() && DestroyedSoFar(store.state, s0, segments, todo)
    requires s in todo && todo <= segments && segments <= s0.Values
    modifies store
    ensures store.Valid() && r == Ok && DestroyedSoFar(store.state, s0, segments, todo - {s})
    ensures store.state.pipelineInstances == old(store.state.pipelineInstances)
  {
    ghost var k := KeyOf(s0, s);
    r := store.SegmentInstancesUpdateResourceActualState(s.id, Destroyed);
    forall j | j in s0
      ensures store.state.segmentInstances[j]
              == if s0[j] in segments && s0[j] !in todo - {s} then s0[j].(actualStatus := Destroyed) else s0[j]
    {
      assert s0[j].id == j;
    }
  }

  /** Reports each of the given stored segments Destroyed; every report succeeds and changes only the
      actual status of that segment. */
  method ReportEachDestroyed(store: Store, segments: set<SegmentInstance>) returns (allOk: bool)
    requires store.Valid()
    requires segments <= store.state.segmentInstances.Values
    modifies store
    ensures store.Valid() && allOk
    ensures store.state.pipelineInstances == old(store.state.pipelineInstances)
    ensures DestroyedSoFar(store.state, old(store.state.segmentInstances), segments, {})
  {
    ghost var s0 := store.state.segmentInstances;
    allOk := true;
    var todo := segments;
    while todo != {}
      invariant store.Valid() && allOk
      invariant todo <= segments
      invariant store.state.pipelineInstances == old(store.state.pipelineInstances)
      invariant DestroyedSoFar(store.state, s0, segments, todo)
      decreases todo
    {
      ghost var some := PickMember(todo);
      var s :| s in todo;
      var r := ReportDestroyedStep(store, s0, segments, todo, s);
      allOk := allOk && r == Ok;
      todo := todo - {s};
    }
  }

  /** The segments still in todo are stored as given but for their actual status, and removable; the rest of
      segments are gone; every segment left was in before unchanged; pipelines keep their ids and executors. */
  ghost predicate RemovedSoFar(st: RootState, before: RootState, segments: set<SegmentInstance>, todo: set<SegmentInstance>)
  {
    && (forall s :: s in todo ==>
          s.id in st.segmentInstances && Removable(st.segmentInstances[s.id])
          && st.segmentInstances[s.id] == s.(actualStatus := st.segmentInstances[s.id].actualStatus))
    && (forall s :: s in segments && s !in todo ==> s.id !in st.segmentInstances)
    && (forall k :: k in st.segmentInstances ==>
          k in before.segmentInstances && st.segmentInstances[k] == before.segmentInstances[k])
    && st.pipelineInstances.Keys == before.pipelineInstances.Keys
    && forall q :: q in before.pipelineInstances ==>
         st.pipelineInstances[q].executorId == before.pipelineInstances[q].executorId
  }

  method RemoveStep(store: Store, ghost before: RootState, ghost s0: map<Id, SegmentInstance>,
                    segments: set<SegmentInstance>, ghost todo: set<SegmentInstance>, s: SegmentInstance)
      returns (r: Outcome)
    requires store.Valid() && RemovedSoFar(store.state, before, segments, todo)
    requires s in todo && todo <= segments
    requires forall t :: t in segments ==> t.id in s0 && s0[t.id] == t
    modifies store
    ensures store.Valid() && r == Ok && RemovedSoFar(store.state, before, segments, todo - {s})
  {
    ghost var st0 := store.state;
    r := store.SegmentInstancesRemove(s);
    forall t | t in todo - {s}
      ensures t.id != s.id
    {
      assert s0[t.id] == t;
    }
  }

  /** Removes each of the given segments, all removable and stored as given but for their actual status;
      every removal succeeds, and the other segments and every pipeline's executor stay as they were. */
  method RemoveEach(store: Store, ghost s0: map<Id, SegmentInstance>, segments: set<SegmentInstance>) returns (allOk: bool)
    requires store.Valid()
    requires forall s :: s in segments ==> s.id in s0 && s0[s.id] == s
    requires RemovedSoFar(store.state, store.state, segments, segments)
    modifies store
    ensures store.Valid() && allOk
    ensures RemovedSoFar(store.state, old(store.state), segments, {})
  {
    ghost var before := store.state;
    allOk := true;
    var todo := segments;
    while todo != {}
      invariant store.Valid() && allOk
      invariant todo <= segments
      invariant RemovedSoFar(store.state, before, segments, todo)
      decreases todo
    {
      ghost var some := PickMember(todo);
      var s :| s in todo;
      var r := RemoveStep(store, before, s0, segments, todo, s);
      allOk := allOk && r == Ok;
      todo := todo - {s};
    }
  }

  /** Reports every segment of pipeline pid Destroyed, then removes each of them: every dispatch succeeds,
      none of their ids is left in the pipeline's segmentIds, and the pipeline keeps its executor. */
  method ClearSegments(store: Store, pid: Id) returns (segments: set<SegmentInstance>, allOk: bool)
    requires store.Valid() && pid in store.state.pipelineInstances
    modifies store
    ensures store.Valid() && allOk
    ensures pid in store.state.pipelineInstances && store.state.pipelineInstances[pid].segmentIds == {}
    ensures store.state.pipelineInstances.Keys == old(store.state.pipelineInstances.Keys)
    ensures store.state.pipelineInstances[pid].executorId == old(store.state.pipelineInstances[pid].executorId)
  {
    segments := SegmentInstancesSelectByPipelineId(store.GetState(), pid);
    ghost var s0 := store.state.segmentInstances;
    var reported := ReportEachDestroyed(store, segments);
    ghost var s1 := store.state.segmentInstances;
    forall s | s in segments
      ensures s.id in s0 && s0[s.id] == s
      ensures s.id in s1 && Removable(s1[s.id]) && s1[s.id] == s.(actualStatus := s1[s.id].actualStatus)
    {
      var k := KeyOf(s0, s);
    }
    ghost var before := store.state;
    var removedEach := RemoveEach(store, s0, segments);
    allOk := reported && removedEach;
    NoSegmentsOfPipelineLeft(store.state, before, s0, segments, pid);
  }

  /** Once every selected segment of pid is gone and the rest kept their pipeline, pid holds no segment id. */
  lemma NoSegmentsOfPipelineLeft(st: RootState, before: RootState, s0: map<Id, SegmentInstance>,
                                 segments: set<SegmentInstance>, pid: Id)
    requires SegmentIdsMirror(st) && pid in st.pipelineInstances
    requires segments == set s | s in s0.Values && s.pipelineInstanceId == pid
    requires forall k :: k in s0 ==> s0[k].id == k
    requires forall k :: k in before.segmentInstances ==>
               k in s0 && before.segmentInstances[k].pipelineInstanceId == s0[k].pipelineInstanceId
    requires RemovedSoFar(st, before, segments, {})
    ensures st.pipelineInstances[pid].segmentIds == {}
  {
    forall k | k in st.segmentInstances
      ensures st.segmentInstances[k].pipelineInstanceId != pid
    {
      assert before.segmentInstances[k] == st.segmentInstances[k];
      assert s0[k] in s0.Values;
    }
    NoSegmentsLeft(st, pid);
  }

  /** After the cascade: report every segment of the pipeline Destroyed, then remove each of them. Every
      dispatch succeeds, the pipeline's segmentIds end up empty, and the pipeline can then be removed,
      leaving none. */
  method PipelineRemoveSegments(c: Connection, d: PipelineDefinition, m: Mapping, p: PipelineInstance, w: Worker)
      returns (segments: set<SegmentInstance>, allOk: bool, found: Option<PipelineInstance>, removed: Outcome,
               all: set<PipelineInstance>)
    requires PipelineFixture(c, d, p) && WorkerFixture(c, w)
    ensures allOk
    ensures found.Some? && found.value.segmentIds == {}
    ensures removed == Ok && all == {}
  {
    var store := SetupWithSegments(c, d, m, p, w);
    segments, allOk := ClearSegments(store, p.id);
    found := PipelineInstancesSelectById(store.GetState(), p.id);
    removed := store.PipelineInstancesRemove(p);
    all := PipelineInstancesSelectAll(store.GetState());
  }

  // ---------------------------------------------------------------- workers

  /** The workers suite's default objects: worker w runs on connection c. */
  predicate WorkerFixture(c: Connection, w: Worker)
  {
    w.machineId == c.id
  }

  /** On an empty store no worker is selected, the total is 0, removing fails and adding before the
      machine's connection fails. */
  method WorkersEmpty(w: Worker) returns (all: set<Worker>, total: nat, removed: Outcome, added: Outcome)
    ensures all == {} && total == 0
    ensures removed == Fail(NotFound)
    ensures added == Fail(MissingParent)
  {
    var store := new Store();
    all := WorkersSelectAll(store.GetState());
    total := WorkersSelectTotal(store.GetState());
    removed := store.WorkersRemove(w);
    added := store.WorkersAdd(w);
  }

  /** Connects c and adds w. */
  method SetupWorker(c: Connection, w: Worker) returns (store: Store)
    requires WorkerFixture(c, w)
    ensures fresh(store) && store.Valid()
    ensures store.state == EmptyState().(connections := map[c.id := c], workers := map[w.id := NewWorker(w)])
  {
    store := new Store();
    var r := store.ConnectionsAdd(c);
    r := store.WorkersAdd(w);
  }

  /** The added worker is the only one selected, with the supplied id, machine and address, Registered and
      holding no segment; the total is 1 and adding it again fails. */
  method WorkersSingle(c: Connection, w: Worker) returns (all: set<Worker>, one: Option<Worker>, total: nat, dup: Outcome)
    requires WorkerFixture(c, w)
    ensures one.Some?
    ensures one.value.id == w.id && one.value.machineId == c.id && one.value.workerAddress == w.workerAddress
    ensures one.value.state == Registered && one.value.assignedSegmentIds == {}
    ensures all == {one.value} && total == 1
    ensures dup == Fail(DuplicateId)
  {
    var store := SetupWorker(c, w);
    all := WorkersSelectAll(store.GetState());
    one := WorkersSelectById(store.GetState(), w.id);
    total := WorkersSelectTotal(store.GetState());
    dup := store.WorkersAdd(w);
  }

  /** Removing an unknown id fails; removing the worker leaves none. */
  method WorkersRemoveScenario(c: Connection, w: Worker, otherId: Id) returns (unknown: Outcome, valid: Outcome, all: set<Worker>)
    requires WorkerFixture(c, w) && otherId != w.id
    ensures unknown == Fail(NotFound)
    ensures valid == Ok && all == {}
  {
    var store := SetupWorker(c, w);
    unknown := store.WorkersRemove(w.(id := otherId));
    valid := store.WorkersRemove(w);
    all := WorkersSelectAll(store.GetState());
  }

  /** Activating makes the worker Activated; activating it again succeeds and leaves it Activated. */
  method WorkersActivateTwice(c: Connection, w: Worker)
      returns (first: Outcome, once: Option<Worker>, second: Outcome, twice: Option<Worker>)
    requires WorkerFixture(c, w)
    ensures first == Ok && once.Some? && once.value.state == Activated
    ensures second == Ok && twice.Some? && twice.value.state == Activated
  {
    var store := SetupWorker(c, w);
    assert [w][0] == w;
    assert IdsOf([w]) == {w.id};
    first := store.WorkersActivate([w]);
    once := WorkersSelectById(store.GetState(), w.id);
    second := store.WorkersActivate([w]);
    twice := WorkersSelectById(store.GetState(), w.id);
  }

  /** Dropping the worker's connection removes the worker. */
  method WorkersConnectionDropped(c: Connection, w: Worker) returns (dropped: Outcome, all: set<Worker>)
    requires WorkerFixture(c, w)
    ensures dropped == Ok && all == {}
  {
    var store := SetupWorker(c, w);
    dropped := store.ConnectionsDropOne(c.id);
    all := WorkersSelectAll(store.GetState());
  }

  /** On top of "Single", adds worker w on c. */
  method SetupSingleWorker(c: Connection, d: PipelineDefinition, m: Mapping, p: PipelineInstance, w: Worker)
      returns (store: Store)
    requires PipelineFixture(c, d, p) && WorkerFixture(c, w)
    ensures fresh(store) && store.Valid()
    ensures store.state == SingleState(c, d, m, p).(workers := map[w.id := NewWorker(w)])
  {
    store := SetupSingle(c, d, m, p);
    var r := store.WorkersAdd(w);
    assert r == Ok;
  }

  /** Connects c, adds w, deploys p (definition d mapped for c with m) and adds segment s of p on w. The
      workers suite adds p without adding or mapping d first; the pipeline suite shows that such an add
      fails, so the definition and mapping are added here before p. */
  method SetupWorkerWithSegment(c: Connection, w: Worker, d: PipelineDefinition, m: Mapping, p: PipelineInstance,
                                s: SegmentInstance) returns (store: Store)
    requires WorkerFixture(c, w) && PipelineFixture(c, d, p)
    requires s.pipelineInstanceId == p.id && s.workerId == w.id
    ensures fresh(store) && store.Valid()
    ensures store.state.workers == map[w.id := NewWorker(w).(assignedSegmentIds := {s.id})]
    ensures store.state.segmentInstances == map[s.id := NewSegment(s)]
    ensures store.state.pipelineInstances == map[p.id := NewPipeline(p).(segmentIds := {s.id})]
  {
    store := SetupSingleWorker(c, d, m, p, w);
    var r := store.SegmentInstancesAdd(s);
    assert r == Ok;
    assert NewWorker(w).assignedSegmentIds + {s.id} == {s.id};
    assert NewPipeline(p).segmentIds + {s.id} == {s.id};
  }

  /** A segment added on the worker shows in its assignedSegmentIds. */
  method WorkersContainsSegment(c: Connection, w: Worker, d: PipelineDefinition, m: Mapping, p: PipelineInstance,
                                s: SegmentInstance) returns (found: Option<Worker>)
    requires WorkerFixture(c, w) && PipelineFixture(c, d, p)
    requires s.pipelineInstanceId == p.id && s.workerId == w.id
    ensures found.Some? && s.id in found.value.assignedSegmentIds
  {
    var store := SetupWorkerWithSegment(c, w, d, m, p, s);
    found := WorkersSelectById(store.GetState(), w.id);
  }

  /** A worker that holds a segment cannot be removed. */
  method WorkersRemoveBeforeSegment(c: Connection, w: Worker, d: PipelineDefinition, m: Mapping, p: PipelineInstance,
                                    s: SegmentInstance) returns (removed: Outcome)
    requires WorkerFixture(c, w) && PipelineFixture(c, d, p)
    requires s.pipelineInstanceId == p.id && s.workerId == w.id
    ensures removed == Fail(ResourceInUse)
  {
    var store := SetupWorkerWithSegment(c, w, d, m, p, s);
    removed := store.WorkersRemove(w);
  }

  /** Marks the one segment Completed and removes it: both succeed, and the worker holds nothing again. */
  method CompleteAndRemoveSegment(store: Store, w: Worker, p: PipelineInstance, s: SegmentInstance)
      returns (completed: Outcome, segmentRemoved: Outcome)
    requires store.Valid() && s.pipelineInstanceId == p.id && s.workerId == w.id
    requires store.state.workers == map[w.id := NewWorker(w).(assignedSegmentIds := {s.id})]
    requires store.state.segmentInstances == map[s.id := NewSegment(s)]
    requires store.state.pipelineInstances == map[p.id := NewPipeline(p).(segmentIds := {s.id})]
    modifies store
    ensures store.Valid()
    ensures completed == Ok && segmentRemoved == Ok
    ensures store.state.workers == map[w.id := NewWorker(w)]
  {
    completed := store.SegmentInstancesUpdateState(s.id, Completed);
    assert completed == Ok;
    assert store.state.segmentInstances == map[s.id := NewSegment(s).(state := Completed)];
    segmentRemoved := store.SegmentInstancesRemove(s);
    assert segmentRemoved == Ok;
    assert {s.id} - {s.id} == {};
  }

  /** Once its segment is Completed and removed, the segment's id is gone from the worker's
      assignedSegmentIds and the worker can be removed, leaving none. */
  method WorkersRemoveSegment(c: Connection, w: Worker, d: PipelineDefinition, m: Mapping, p: PipelineInstance,
                              s: SegmentInstance)
      returns (completed: Outcome, segmentRemoved: Outcome, found: Option<Worker>, workerRemoved: Outcome, all: set<Worker>)
    requires WorkerFixture(c, w) && PipelineFixture(c, d, p)
    requires s.pipelineInstanceId == p.id && s.workerId == w.id
    ensures completed == Ok && segmentRemoved == Ok
    ensures found.Some? && s.id !in found.value.assignedSegmentIds
    ensures workerRemoved == Ok && all == {}
  {
    var store := SetupWorkerWithSegment(c, w, d, m, p, s);
    completed, segmentRemoved := CompleteAndRemoveSegment(store, w, p, s);
    found := WorkersSelectById(store.GetState(), w.id);
    workerRemoved := store.WorkersRemove(w);
    all := WorkersSelectAll(store.GetState());
  }
}
