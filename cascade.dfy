/** What the cascades triggered by actual-status reports produce: manifold instances when a pipeline instance
    reaches Created, segment instances when the last of its manifolds reaches Created. */
module Cascade {
  import opened Types
  import opened StateMachines
  import opened Tables

  /** The mapping that a stored pipeline instance was deployed with. */
  function MappingOf(st: RootState, pid: Id): Mapping
    requires pid in st.pipelineInstances
    requires HasMapping(st.pipelineDefinitions, st.pipelineInstances[pid].definitionId, st.pipelineInstances[pid].executorId)
  {
    var p := st.pipelineInstances[pid];
    st.pipelineDefinitions[p.definitionId].mappings[p.executorId]
  }

  /** k is one of the count ids from first on. The comprehensions below state the bounds twice: written out
      so Dafny sees the range is finite, and through InRange so their quantifiers have a trigger. */
  predicate InRange(k: Id, first: Id, count: nat)
  {
    first <= k < first + count
  }

  function IdRange(first: Id, count: nat): set<Id>
  {
    set k | first <= k < first + count && InRange(k, first, count)
  }

  // ---------------------------------------------------------------- manifolds

  /** One manifold instance per port, numbered from first in port order. */
  function NewManifolds(pid: Id, ports: seq<string>, first: Id): map<Id, ManifoldInstance>
  {
    map k | first <= k < first + |ports| && InRange(k, first, |ports|) :: ManifoldInstance(k, pid, ports[k - first], Unknown)
  }

  /** The store after the manifolds of pipeline pid have been provisioned for the given ports. */
  function WithManifolds(st: RootState, pid: Id, ports: seq<string>): RootState
  {
    st.(manifoldInstances := st.manifoldInstances + NewManifolds(pid, ports, st.nextManifoldId),
        nextManifoldId := st.nextManifoldId + |ports|)
  }

  lemma NewManifoldsExtend(pid: Id, ports: seq<string>, first: Id, i: nat)
    requires i < |ports|
    ensures NewManifolds(pid, ports[..i+1], first)
         == NewManifolds(pid, ports[..i], first)[first + i := ManifoldInstance(first + i, pid, ports[i], Unknown)]
  {
  }

  /** Provisioning creates exactly one manifold instance per port of the mapping, all of pipeline pid. */
  lemma {:induction false} NewManifoldsOnePerPort(pid: Id, ports: seq<string>, first: Id)
    ensures |NewManifolds(pid, ports, first)| == |ports|
    ensures forall i :: 0 <= i < |ports| ==>
              first + i in NewManifolds(pid, ports, first) && NewManifolds(pid, ports, first)[first + i].portName == ports[i]
    ensures forall k :: k in NewManifolds(pid, ports, first) ==> NewManifolds(pid, ports, first)[k].pipelineInstanceId == pid
  {
    if |ports| > 0 {
      var n := |ports| - 1;
      NewManifoldsOnePerPort(pid, ports[..n], first);
      NewManifoldsExtend(pid, ports, first, n);
      assert ports[..n + 1] == ports;
      assert first + n !in NewManifolds(pid, ports[..n], first);
    }
  }

  /** Updating the right operand of a union at a key is updating the union there. */
  lemma UnionUpdate(a: map<Id, ManifoldInstance>, b: map<Id, ManifoldInstance>, k: Id, v: ManifoldInstance)
    ensures a + b[k := v] == (a + b)[k := v]
  {
  }

  /** Attaching the manifold of the next port extends the provisioning of a port prefix by one port. */
  lemma WithManifoldsExtend(st0: RootState, pid: Id, ports: seq<string>, i: nat)
    requires i < |ports|
    ensures AttachManifold(WithManifolds(st0, pid, ports[..i]), pid, ports[i]) == WithManifolds(st0, pid, ports[..i + 1])
  {
    var first := st0.nextManifoldId;
    var m := ManifoldInstance(first + i, pid, ports[i], Unknown);
    NewManifoldsExtend(pid, ports, first, i);
    UnionUpdate(st0.manifoldInstances, NewManifolds(pid, ports[..i], first), first + i, m);
  }

  /** Provisioning a pipeline's manifolds keeps the invariant. */
  lemma WithManifoldsConsistent(st: RootState, pid: Id, ports: seq<string>)
    requires Consistent(st) && pid in st.pipelineInstances
    ensures Consistent(WithManifolds(st, pid, ports))
  {
    WithManifoldsKeys(st, pid, ports);
    WithManifoldsForeignKeys(st, pid, ports);
  }

  lemma WithManifoldsKeys(st: RootState, pid: Id, ports: seq<string>)
    requires KeysMatch(st) && IdsBelowCounters(st)
    ensures KeysMatch(WithManifolds(st, pid, ports)) && IdsBelowCounters(WithManifolds(st, pid, ports))
  {
  }

  lemma WithManifoldsForeignKeys(st: RootState, pid: Id, ports: seq<string>)
    requires ForeignKeysExist(st) && pid in st.pipelineInstances
    ensures ForeignKeysExist(WithManifolds(st, pid, ports))
  {
  }

  /** Every manifold of pipeline pid has reached Created. */
  predicate AllManifoldsCreated(st: RootState, pid: Id)
  {
    forall m :: m in st.manifoldInstances && st.manifoldInstances[m].pipelineInstanceId == pid ==>
      ActualRank(st.manifoldInstances[m].actualStatus) >= ActualRank(Created)
  }

  // ---------------------------------------------------------------- segments

  /** Some worker runs on connection c. */
  predicate HasWorkerOn(st: RootState, c: Id)
  {
    exists w :: w in st.workers && st.workers[w].machineId == c
  }

  /** How many segments provisioning creates: one per name, or none when no worker can take them. */
  function ProvisionCount(st: RootState, pid: Id, names: seq<string>): nat
    requires pid in st.pipelineInstances
  {
    if HasWorkerOn(st, st.pipelineInstances[pid].executorId) then |names| else 0
  }

  /** Segment k is a freshly provisioned segment of pipeline pid named name, on a worker of the pipeline's connection. */
  predicate IsProvisionedSegment(st: RootState, k: Id, pid: Id, name: string)
    requires pid in st.pipelineInstances
  {
    && k in st.segmentInstances
    && var s := st.segmentInstances[k];
    && s.id == k && s.pipelineInstanceId == pid && s.name == name
    && s.state == Initialized && s.actualStatus == Unknown
    && s.workerId in st.workers
    && st.workers[s.workerId].machineId == st.pipelineInstances[pid].executorId
  }

  /** st1 differs from st0 at most in the derived segmentIds of pipelines and assignedSegmentIds of workers,
      plus the segment table and its counter. */
  ghost predicate OnlySegmentsChanged(st0: RootState, st1: RootState)
  {
    && st1.connections == st0.connections
    && st1.pipelineDefinitions == st0.pipelineDefinitions
    && st1.manifoldInstances == st0.manifoldInstances
    && st1.nextManifoldId == st0.nextManifoldId
    && st1.pipelineInstances.Keys == st0.pipelineInstances.Keys
    && st1.workers.Keys == st0.workers.Keys
    && (forall p :: p in st0.pipelineInstances ==> SameButSegments(st0.pipelineInstances[p], st1.pipelineInstances[p]))
    && (forall w :: w in st0.workers ==> SameButAssigned(st0.workers[w], st1.workers[w]))
  }

  /** a and b are the same pipeline instance up to their segmentIds. */
  predicate SameButSegments(a: PipelineInstance, b: PipelineInstance)
  {
    a.id == b.id && a.definitionId == b.definitionId && a.executorId == b.executorId && a.actualStatus == b.actualStatus
  }

  /** a and b are the same worker up to their assignedSegmentIds. */
  predicate SameButAssigned(a: Worker, b: Worker)
  {
    a.id == b.id && a.machineId == b.machineId && a.workerAddress == b.workerAddress && a.state == b.state
  }

  /** st is st0 after provisioning the first i segments of names for pipeline pid, under consecutive
      fresh ids, each on a worker of the pipeline's connection. */
  ghost predicate PartlyProvisioned(st0: RootState, st: RootState, pid: Id, names: seq<string>, i: nat)
    requires pid in st0.pipelineInstances && i <= |names|
  {
    SegmentsFramed(st0, st, i) && PrefixProvisioned(st0.nextSegmentId, st, pid, names, i)
  }

  /** st is st0 with i more segments under the next i ids, and nothing else changed but derived fields. */
  ghost predicate SegmentsFramed(st0: RootState, st: RootState, i: nat)
  {
    && OnlySegmentsChanged(st0, st)
    && st.nextSegmentId == st0.nextSegmentId + i
    && st.segmentInstances.Keys == st0.segmentInstances.Keys + IdRange(st0.nextSegmentId, i)
    && (forall s :: s in st0.segmentInstances ==> st.segmentInstances[s] == st0.segmentInstances[s])
  }

  /** The ids first, first + 1, ... hold the provisioned segments of the first i names. */
  predicate PrefixProvisioned(first: Id, st: RootState, pid: Id, names: seq<string>, i: nat)
    requires i <= |names|
  {
    pid in st.pipelineInstances && forall j :: 0 <= j < i ==> IsProvisionedSegment(st, first + j, pid, names[j])
  }

  /** st1 is st0 after provisioning one segment per name for pipeline pid, each on some worker of the
      pipeline's connection, under consecutive fresh ids; nothing is provisioned when that connection has
      no worker. */
  ghost predicate SegmentsProvisioned(st0: RootState, st1: RootState, pid: Id, names: seq<string>)
    requires pid in st0.pipelineInstances
  {
    PartlyProvisioned(st0, st1, pid, names, ProvisionCount(st0, pid, names))
  }

  lemma NothingProvisioned(st0: RootState, pid: Id, names: seq<string>)
    requires pid in st0.pipelineInstances
    ensures PartlyProvisioned(st0, st0, pid, names, 0)
  {
    assert IdRange(st0.nextSegmentId, 0) == {};
  }

  lemma AttachSegmentOnlySegments(st: RootState, s: SegmentInstance)
    requires s.pipelineInstanceId in st.pipelineInstances && s.workerId in st.workers
    ensures OnlySegmentsChanged(st, AttachSegment(st, s))
  {
  }

  /** Attaching a segment changes no worker's connection and no pipeline's executor. */
  lemma AttachSegmentKeepsOwners(st: RootState, s: SegmentInstance, w: Id, pid: Id)
    requires s.pipelineInstanceId in st.pipelineInstances && s.workerId in st.workers
    requires w in st.workers && pid in st.pipelineInstances
    ensures w in AttachSegment(st, s).workers && AttachSegment(st, s).workers[w].machineId == st.workers[w].machineId
    ensures pid in AttachSegment(st, s).pipelineInstances
    ensures AttachSegment(st, s).pipelineInstances[pid].executorId == st.pipelineInstances[pid].executorId
  {
  }

  lemma OnlySegmentsChangedTrans(st0: RootState, st1: RootState, st2: RootState)
    requires OnlySegmentsChanged(st0, st1) && OnlySegmentsChanged(st1, st2)
    ensures OnlySegmentsChanged(st0, st2)
  {
  }

  /** Segments provisioned earlier stay provisioned when another segment is attached. */
  lemma ProvisionedSegmentKept(st: RootState, s: SegmentInstance, k: Id, pid: Id, name: string)
    requires s.pipelineInstanceId in st.pipelineInstances && s.workerId in st.workers && s.id != k
    requires pid in st.pipelineInstances && IsProvisionedSegment(st, k, pid, name)
    ensures pid in AttachSegment(st, s).pipelineInstances && IsProvisionedSegment(AttachSegment(st, s), k, pid, name)
  {
    var st1 := AttachSegment(st, s);
    var wk := st.segmentInstances[k].workerId;
    assert st1.workers[wk].machineId == st.workers[wk].machineId;
    assert st1.pipelineInstances[pid].executorId == st.pipelineInstances[pid].executorId;
  }

  /** Attaching the next segment keeps every earlier provisioned segment and adds the new one. */
  lemma ProvisionedPrefixExtend(first: Id, st: RootState, pid: Id, names: seq<string>, i: nat, w: Id)
    requires i < |names| && st.nextSegmentId == first + i && PrefixProvisioned(first, st, pid, names, i)
    requires w in st.workers && st.workers[w].machineId == st.pipelineInstances[pid].executorId
    ensures PrefixProvisioned(first, AttachSegment(st, SegmentInstance(st.nextSegmentId, pid, w, names[i], Initialized, Unknown)),
                              pid, names, i + 1)
  {
    var s := SegmentInstance(st.nextSegmentId, pid, w, names[i], Initialized, Unknown);
    var st1 := AttachSegment(st, s);
    forall j | 0 <= j < i
      ensures IsProvisionedSegment(st1, first + j, pid, names[j])
    {
      ProvisionedSegmentKept(st, s, first + j, pid, names[j]);
    }
    assert st1.workers[w].machineId == st.workers[w].machineId;
    assert IsProvisionedSegment(st1, first + i, pid, names[i]);
  }

  /** Attaching the next segment keeps the tables other than the segment table, and extends that table's keys
      by the next id. */
  lemma ProvisionFrameExtend(st0: RootState, st: RootState, s: SegmentInstance, i: nat)
    requires SegmentsFramed(st0, st, i) && s.id == st.nextSegmentId
    requires s.pipelineInstanceId in st.pipelineInstances && s.workerId in st.workers && s.id !in st.segmentInstances
    ensures SegmentsFramed(st0, AttachSegment(st, s), i + 1)
  {
    var st1 := AttachSegment(st, s);
    AttachSegmentOnlySegments(st, s);
    OnlySegmentsChangedTrans(st0, st, st1);
    assert IdRange(st0.nextSegmentId, i + 1) == IdRange(st0.nextSegmentId, i) + {s.id};
  }

  /** One more segment, on worker w of the pipeline's connection, extends a partial provisioning by one. */
  lemma ProvisionStep(st0: RootState, st: RootState, pid: Id, names: seq<string>, i: nat, w: Id)
    requires IdsBelowCounters(st) && pid in st0.pipelineInstances && i < |names|
    requires PartlyProvisioned(st0, st, pid, names, i)
    requires w in st.workers && st.workers[w].machineId == st.pipelineInstances[pid].executorId
    ensures SegmentParentsExist(st, SegmentInstance(st.nextSegmentId, pid, w, names[i], Initialized, Unknown))
    ensures st.nextSegmentId !in st.segmentInstances
    ensures PartlyProvisioned(st0, AttachSegment(st, SegmentInstance(st.nextSegmentId, pid, w, names[i], Initialized, Unknown)),
                              pid, names, i + 1)
  {
    var s := SegmentInstance(st.nextSegmentId, pid, w, names[i], Initialized, Unknown);
    ProvisionedPrefixExtend(st0.nextSegmentId, st, pid, names, i, w);
    ProvisionFrameExtend(st0, st, s, i);
  }

  /** Every id of the provisioned range names a new segment of pipeline pid, recorded on its worker; the
      segments that were there before are untouched. */
  lemma ProvisionedInRange(st0: RootState, st1: RootState, pid: Id, names: seq<string>, n: nat)
    requires AssignedMirror(st1)
    requires pid in st0.pipelineInstances && n <= |names| && PartlyProvisioned(st0, st1, pid, names, n)
    ensures pid in st1.pipelineInstances
    ensures st1.segmentInstances.Keys == st0.segmentInstances.Keys + IdRange(st0.nextSegmentId, n)
    ensures forall k :: k in st0.segmentInstances ==> st1.segmentInstances[k] == st0.segmentInstances[k]
    ensures forall k :: k in IdRange(st0.nextSegmentId, n) ==>
              && k in st1.segmentInstances && st1.segmentInstances[k].pipelineInstanceId == pid
              && st1.segmentInstances[k].workerId in st1.workers
              && k in st1.workers[st1.segmentInstances[k].workerId].assignedSegmentIds
  {
    var first := st0.nextSegmentId;
    forall k | k in IdRange(first, n)
      ensures && k in st1.segmentInstances && st1.segmentInstances[k].pipelineInstanceId == pid
              && st1.segmentInstances[k].workerId in st1.workers
              && k in st1.workers[st1.segmentInstances[k].workerId].assignedSegmentIds
    {
      assert 0 <= k - first < n;
      assert IsProvisionedSegment(st1, first + (k - first), pid, names[k - first]);
    }
  }

  /** By the mirror on both sides, a pipeline whose old segments stay and which owns every new id gains
      exactly those ids. */
  lemma PipelineGainedRange(st0: RootState, st1: RootState, pid: Id, added: set<Id>)
    requires SegmentIdsMirror(st0) && SegmentIdsMirror(st1)
    requires pid in st0.pipelineInstances && pid in st1.pipelineInstances
    requires st1.segmentInstances.Keys == st0.segmentInstances.Keys + added
    requires forall k :: k in st0.segmentInstances ==> st1.segmentInstances[k] == st0.segmentInstances[k]
    requires forall k :: k in added ==> k in st1.segmentInstances && st1.segmentInstances[k].pipelineInstanceId == pid
    ensures st1.pipelineInstances[pid].segmentIds == st0.pipelineInstances[pid].segmentIds + added
  {
    var before := st0.pipelineInstances[pid].segmentIds;
    var after := st1.pipelineInstances[pid].segmentIds;
    forall k | k in after
      ensures k in before + added
    {
      assert k in st1.segmentInstances && st1.segmentInstances[k].pipelineInstanceId == pid;
      if k in st0.segmentInstances {
        assert st0.segmentInstances[k] == st1.segmentInstances[k];
      }
    }
    forall k | k in before
      ensures k in after
    {
      assert st0.segmentInstances[k] == st1.segmentInstances[k];
    }
    forall k | k in added
      ensures k in after
    {
      assert k in st1.segmentInstances && st1.segmentInstances[k].pipelineInstanceId == pid;
    }
  }

  /** After provisioning, the pipeline's segmentIds gained exactly the new ids, and each new segment is
      recorded in its worker's assignedSegmentIds. */
  lemma ProvisionedSegmentsRecorded(st0: RootState, st1: RootState, pid: Id, names: seq<string>)
    requires SegmentIdsMirror(st0) && SegmentIdsMirror(st1) && AssignedMirror(st1) && pid in st0.pipelineInstances
    requires SegmentsProvisioned(st0, st1, pid, names)
    ensures st1.pipelineInstances[pid].segmentIds
         == st0.pipelineInstances[pid].segmentIds + IdRange(st0.nextSegmentId, ProvisionCount(st0, pid, names))
    ensures forall k :: k in IdRange(st0.nextSegmentId, ProvisionCount(st0, pid, names)) ==>
              k in st1.segmentInstances && st1.segmentInstances[k].workerId in st1.workers
              && k in st1.workers[st1.segmentInstances[k].workerId].assignedSegmentIds
  {
    var n := ProvisionCount(st0, pid, names);
    ProvisionedInRange(st0, st1, pid, names, n);
    PipelineGainedRange(st0, st1, pid, IdRange(st0.nextSegmentId, n));
  }
}
