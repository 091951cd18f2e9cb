/** The store's read side: select-all, select-by-id, totals and the by-pipeline / by-worker lookups,
    all pure functions of the root state. */
module Selectors {
  import opened Types
  import opened Tables

  function PipelineInstancesSelectAll(st: RootState): set<PipelineInstance>
  {
    st.pipelineInstances.Values
  }

  function PipelineInstancesSelectById(st: RootState, id: Id): Option<PipelineInstance>
  {
    if id in st.pipelineInstances then Some(st.pipelineInstances[id]) else None
  }

  function PipelineInstancesSelectTotal(st: RootState): nat
  {
    |st.pipelineInstances|
  }

  function WorkersSelectAll(st: RootState): set<Worker>
  {
    st.workers.Values
  }

  function WorkersSelectById(st: RootState, id: Id): Option<Worker>
  {
    if id in st.workers then Some(st.workers[id]) else None
  }

  function WorkersSelectTotal(st: RootState): nat
  {
    |st.workers|
  }

  function ManifoldInstancesSelectByPipelineId(st: RootState, pid: Id): set<ManifoldInstance>
  {
    set m | m in st.manifoldInstances.Values && m.pipelineInstanceId == pid
  }

  function SegmentInstancesSelectByPipelineId(st: RootState, pid: Id): set<SegmentInstance>
  {
    set s | s in st.segmentInstances.Values && s.pipelineInstanceId == pid
  }

  function SegmentInstancesSelectByWorkerId(st: RootState, wid: Id): set<SegmentInstance>
  {
    set s | s in st.segmentInstances.Values && s.workerId == wid
  }

  function SegmentIds(segments: set<SegmentInstance>): set<Id>
  {
    set s | s in segments :: s.id
  }

  /** Some key of a non-empty table. */
  lemma PickKey<V>(m: map<Id, V>) returns (k: Id)
    requires m != map[]
    ensures k in m
  {
    if forall j :: j !in m {
      assert false;
    }
    k :| k in m;
  }

  /** The key under which a stored value sits. */
  lemma KeyOf<V>(m: map<Id, V>, v: V) returns (k: Id)
    requires v in m.Values
    ensures k in m && m[k] == v
  {
    if forall j :: j in m ==> m[j] != v {
      assert false;
    }
    k :| k in m && m[k] == v;
  }

  /** Taking one key out of a table takes out exactly its value, when no other key holds that value. */
  lemma ValuesWithout<V>(m: map<Id, V>, k: Id)
    requires k in m
    requires forall j :: j in m && j != k ==> m[j] != m[k]
    ensures m.Values == (m - {k}).Values + {m[k]} && m[k] !in (m - {k}).Values
  {
    var rest := m - {k};
    forall v | v in m.Values
      ensures v in rest.Values + {m[k]}
    {
      var j := KeyOf(m, v);
      if j != k {
        assert rest[j] == v;
      }
    }
    forall v | v in rest.Values
      ensures v in m.Values && v != m[k]
    {
      var j := KeyOf(rest, v);
      assert m[j] == v;
    }
  }

  /** A table whose entries carry their own key has as many distinct values as keys. */
  lemma {:induction false} ValuesCount<V>(m: map<Id, V>, idOf: V -> Id)
    requires forall k :: k in m ==> idOf(m[k]) == k
    ensures |m.Values| == |m|
  {
    if m != map[] {
      var k := PickKey(m);
      var rest := m - {k};
      ValuesCount(rest, idOf);
      forall j | j in m && j != k
        ensures m[j] != m[k]
      {
        assert idOf(m[j]) == j;
      }
      ValuesWithout(m, k);
      assert m.Keys == rest.Keys + {k};
    }
  }

  /** The total is the number of instances select-all returns. */
  lemma PipelineTotalIsSelectAllSize(st: RootState)
    requires KeysMatch(st)
    ensures |PipelineInstancesSelectAll(st)| == PipelineInstancesSelectTotal(st)
  {
    ValuesCount(st.pipelineInstances, (p: PipelineInstance) => p.id);
  }

  lemma WorkerTotalIsSelectAllSize(st: RootState)
    requires KeysMatch(st)
    ensures |WorkersSelectAll(st)| == WorkersSelectTotal(st)
  {
    ValuesCount(st.workers, (w: Worker) => w.id);
  }

  /** Select-by-id finds exactly the instance of select-all that carries that id. */
  lemma PipelineSelectByIdInSelectAll(st: RootState, id: Id)
    requires KeysMatch(st)
    ensures PipelineInstancesSelectById(st, id).Some? <==> exists p :: p in PipelineInstancesSelectAll(st) && p.id == id
    ensures PipelineInstancesSelectById(st, id).Some? ==>
              PipelineInstancesSelectById(st, id).value in PipelineInstancesSelectAll(st)
              && PipelineInstancesSelectById(st, id).value.id == id
  {
    if p :| p in PipelineInstancesSelectAll(st) && p.id == id {
      var k := KeyOf(st.pipelineInstances, p);
    }
    if id in st.pipelineInstances {
      assert st.pipelineInstances[id] in PipelineInstancesSelectAll(st);
    }
  }

  lemma WorkerSelectByIdInSelectAll(st: RootState, id: Id)
    requires KeysMatch(st)
    ensures WorkersSelectById(st, id).Some? <==> exists w :: w in WorkersSelectAll(st) && w.id == id
    ensures WorkersSelectById(st, id).Some? ==>
              WorkersSelectById(st, id).value in WorkersSelectAll(st) && WorkersSelectById(st, id).value.id == id
  {
    if w :| w in WorkersSelectAll(st) && w.id == id {
      var k := KeyOf(st.workers, w);
    }
    if id in st.workers {
      assert st.workers[id] in WorkersSelectAll(st);
    }
  }

  /** A pipeline's segmentIds are exactly the ids of the segments selected by its id. */
  lemma PipelineSegmentIdsMirrorSelect(st: RootState, pid: Id)
    requires Consistent(st) && pid in st.pipelineInstances
    ensures SegmentIds(SegmentInstancesSelectByPipelineId(st, pid)) == st.pipelineInstances[pid].segmentIds
  {
    var selected := SegmentInstancesSelectByPipelineId(st, pid);
    forall sid | sid in st.pipelineInstances[pid].segmentIds
      ensures sid in SegmentIds(selected)
    {
      assert st.segmentInstances[sid] in selected;
      assert st.segmentInstances[sid].id == sid;
    }
    forall s | s in selected
      ensures s.id in st.pipelineInstances[pid].segmentIds
    {
      var k := KeyOf(st.segmentInstances, s);
    }
  }

  /** A worker's assignedSegmentIds are exactly the ids of the segments selected by its id. */
  lemma WorkerAssignedMirrorSelect(st: RootState, wid: Id)
    requires Consistent(st) && wid in st.workers
    ensures SegmentIds(SegmentInstancesSelectByWorkerId(st, wid)) == st.workers[wid].assignedSegmentIds
  {
    var selected := SegmentInstancesSelectByWorkerId(st, wid);
    forall sid | sid in st.workers[wid].assignedSegmentIds
      ensures sid in SegmentIds(selected)
    {
      assert st.segmentInstances[sid] in selected;
      assert st.segmentInstances[sid].id == sid;
    }
    forall s | s in selected
      ensures s.id in st.workers[wid].assignedSegmentIds
    {
      var k := KeyOf(st.segmentInstances, s);
    }
  }
}
