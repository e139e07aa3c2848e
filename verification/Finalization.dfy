/**
 * The terminal transition of a Job (apps/scheduler/src/core.ts, `finalizeJob`) as any number of
 * transactions running against each other and against any other writer.
 *
 * The transaction reads its Canvas without a lock and only then locks Canvas, Job and nodes; other
 * writers may change everything in between.  Row locks have the database's meaning: a locked row is
 * changed by its holder only, and a node can come to reference a Job only while the Job row is unlocked.
 * A node's type never changes.  What a transaction writes becomes visible at its commit.
 */
module Finalization {
  import opened Options

  type JobId = nat
  type CanvasId = nat
  type NodeId = nat
  type TxId = nat

  datatype Status = Running | Succeeded | Failed | Other(code: nat)

  datatype Job = Job(status: Status, canvas: Option<CanvasId>)

  /** `converging` tells the job, intent and report nodes from the rest. */
  datatype Node = Node(job: Option<JobId>, canvas: Option<CanvasId>, converging: bool, status: Option<Status>)

  datatype Stage = Begun | JobRead | NodesRead | CanvasLocked | JobLocked | NodesLocked | Updated | Written

  /** A transaction's local variables. */
  datatype Tx = Tx(
    jobId: JobId, status: Status, stage: Stage,
    jobCanvas: Option<CanvasId>,                  // candidateJobCanvasId
    nodes: map<NodeId, Option<CanvasId>>,         // candidateNodes
    canvas: Option<CanvasId>,                     // candidateCanvasId
    written: set<NodeId>)                         // rows the node update matched

  datatype Commit = Commit(jobId: JobId, status: Status, from: Status, jobCanvas: Option<CanvasId>,
                           nodeCanvases: map<NodeId, Option<CanvasId>>, locked: Option<CanvasId>)

  datatype State = State(
    canvases: set<CanvasId>, jobs: map<JobId, Job>, nodes: map<NodeId, Node>, txs: map<TxId, Tx>,
    canvasLocks: map<CanvasId, TxId>, jobLocks: map<JobId, TxId>, nodeLocks: map<NodeId, TxId>,
    log: seq<Commit>)

  datatype Event =
    | Begin(tx: TxId, jobId: JobId, status: Status)
    | ReadJob(tx: TxId)
    | ReadNodes(tx: TxId)
    | LockCanvas(tx: TxId)
    | LockJob(tx: TxId)
    | LockNodes(tx: TxId)
    | UpdateJob(tx: TxId)
    | WriteNodes(tx: TxId)
    | CommitTx(tx: TxId)
    | Abort(tx: TxId)
    | PutCanvas(c: CanvasId)
    | DropCanvas(c: CanvasId)
    | PutJob(jobId: JobId, job: Job)
    | PutNode(node: NodeId, row: Node)
    | DropNode(node: NodeId)

  /** The converging nodes of a Job, each with its Canvas. */
  function NodesOf(s: State, j: JobId): map<NodeId, Option<CanvasId>> {
    map n | n in s.nodes && s.nodes[n].job == Some(j) && s.nodes[n].converging :: s.nodes[n].canvas
  }

  predicate At(s: State, t: TxId, stage: Stage) { t in s.txs && s.txs[t].stage == stage }

  predicate Enabled(s: State, e: Event) {
    match e
    case Begin(t, _, status) => t !in s.txs && status in {Succeeded, Failed}
    case ReadJob(t) => At(s, t, Begun)
    case ReadNodes(t) => At(s, t, JobRead)
    case LockCanvas(t) => At(s, t, NodesRead) && (s.txs[t].canvas.Some? ==> s.txs[t].canvas.value !in s.canvasLocks)
    case LockJob(t) => At(s, t, CanvasLocked) && s.txs[t].jobId !in s.jobLocks
    case LockNodes(t) =>
      // Rows that wait are re-read, so the statement answers with the rows as they are when it has them all.
      At(s, t, JobLocked) && forall n :: n in NodesOf(s, s.txs[t].jobId) ==> n !in s.nodeLocks
    case UpdateJob(t) => At(s, t, NodesLocked)
    case WriteNodes(t) => At(s, t, Updated)
    case CommitTx(t) => At(s, t, Written)
    case Abort(t) => t in s.txs
    case PutCanvas(c) => c !in s.canvasLocks
    case DropCanvas(c) => c !in s.canvasLocks
    case PutJob(j, job) => j !in s.jobLocks && (j in s.jobs && s.jobs[j].status.Succeeded? ==> job.status.Succeeded?)
    case PutNode(n, row) =>
      && n !in s.nodeLocks
      && (n in s.nodes ==> row.converging == s.nodes[n].converging)
      && (row.job.Some? && (n !in s.nodes || s.nodes[n].job != row.job) ==> row.job.value !in s.jobLocks)
    case DropNode(n) => n !in s.nodeLocks
  }

  function Released(s: State, t: TxId): State {
    s.(txs := s.txs - {t},
       canvasLocks := map c | c in s.canvasLocks && s.canvasLocks[c] != t :: s.canvasLocks[c],
       jobLocks := map j | j in s.jobLocks && s.jobLocks[j] != t :: s.jobLocks[j],
       nodeLocks := map n | n in s.nodeLocks && s.nodeLocks[n] != t :: s.nodeLocks[n])
  }

  /** The Canvas the unlocked reads point to, or None when they contradict each other. */
  ghost function Candidate(jobCanvas: Option<CanvasId>,
    nodes: map<NodeId, Option<CanvasId>>): Option<Option<CanvasId>> {
    if exists n :: n in nodes && nodes[n].None? then None
    else if exists n, m :: n in nodes && m in nodes && nodes[n] != nodes[m] then None
    else if jobCanvas.Some? && exists n :: n in nodes && nodes[n] != jobCanvas then None
    else if jobCanvas.Some? then Some(jobCanvas)
    else if nodes == map[] then Some(None)
    else var n :| n in nodes; Some(nodes[n])
  }

  ghost function Next(s: State, e: Event): State
    requires Enabled(s, e)
  {
    match e
    case Begin(t, j, status) => s.(txs := s.txs[t := Tx(j, status, Begun, None, map[], None, {})])
    case ReadJob(t) =>
      var x := s.txs[t];
      if x.jobId !in s.jobs then Released(s, t)
      else s.(txs := s.txs[t := x.(stage := JobRead, jobCanvas := s.jobs[x.jobId].canvas)])
    case ReadNodes(t) =>
      var x := s.txs[t];
      var nodes := NodesOf(s, x.jobId);
      var candidate := Candidate(x.jobCanvas, nodes);
      if candidate.None? then Released(s, t)
      else s.(txs := s.txs[t := x.(stage := NodesRead, nodes := nodes, canvas := candidate.value)])
    case LockCanvas(t) =>
      var x := s.txs[t];
      if x.canvas.None? then s.(txs := s.txs[t := x.(stage := CanvasLocked)])
      else if x.canvas.value !in s.canvases then Released(s, t)
      else s.(txs := s.txs[t := x.(stage := CanvasLocked)], canvasLocks := s.canvasLocks[x.canvas.value := t])
    case LockJob(t) =>
      var x := s.txs[t];
      if x.jobId !in s.jobs || s.jobs[x.jobId].canvas != x.jobCanvas then Released(s, t)
      else s.(txs := s.txs[t := x.(stage := JobLocked)], jobLocks := s.jobLocks[x.jobId := t])
    case LockNodes(t) =>
      var x := s.txs[t];
      var nodes := NodesOf(s, x.jobId);
      if nodes != x.nodes || exists n :: n in nodes && nodes[n] != x.canvas then Released(s, t)
      else s.(txs := s.txs[t := x.(stage := NodesLocked)], nodeLocks := s.nodeLocks + map n | n in nodes :: t)
    case UpdateJob(t) =>
      var x := s.txs[t];
      if x.jobId !in s.jobs || !s.jobs[x.jobId].status.Running? then Released(s, t)
      else s.(txs := s.txs[t := x.(stage := Updated)])
    case WriteNodes(t) =>
      // The UPDATE selects its rows anew, by Job and type.
      s.(txs := s.txs[t := s.txs[t].(stage := Written, written := NodesOf(s, s.txs[t].jobId).Keys)])
    case CommitTx(t) => Committed(s, t)
    case Abort(t) => Released(s, t)
    case PutCanvas(c) => s.(canvases := s.canvases + {c})
    case DropCanvas(c) => s.(canvases := s.canvases - {c})
    case PutJob(j, job) => s.(jobs := s.jobs[j := job])
    case PutNode(n, row) => s.(nodes := s.nodes[n := row])
    case DropNode(n) => s.(nodes := s.nodes - {n})
  }

  /** Job and nodes change together, and the commit is noted with the rows as they are at that moment. */
  function Committed(s: State, t: TxId): State
    requires t in s.txs
  {
    var x := s.txs[t];
    if x.jobId !in s.jobs then Released(s, t)
    else
      var job := s.jobs[x.jobId];
      Released(s, t).(
        jobs := s.jobs[x.jobId := job.(status := x.status)],
        nodes := map n | n in s.nodes :: if n in x.written then s.nodes[n].(status := Some(x.status)) else s.nodes[n],
        log := s.log + [Commit(x.jobId, x.status, job.status, job.canvas,
                               map n | n in x.written && n in s.nodes :: s.nodes[n].canvas, x.canvas)])
  }

  ghost function Run(es: seq<Event>): Option<State> {
    if es == [] then Some(State({}, map[], map[], map[], map[], map[], map[], []))
    else
      match Run(es[..|es|-1])
      case None => None
      case Some(s) => if Enabled(s, es[|es|-1]) then Some(Next(s, es[|es|-1])) else None
  }

  // ---------- What every step keeps ----------

  function Rank(stage: Stage): nat {
    match stage
    case Begun => 0 case JobRead => 1 case NodesRead => 2 case CanvasLocked => 3
    case JobLocked => 4 case NodesLocked => 5 case Updated => 6 case Written => 7
  }

  /** The unlocked reads agree on one Canvas. */
  predicate Agreed(x: Tx) {
    && (x.jobCanvas.Some? ==> x.canvas == x.jobCanvas)
    && (forall n :: n in x.nodes ==> x.nodes[n].Some? && x.nodes[n] == x.canvas)
  }

  /** What a transaction knows by the locks it holds. */
  predicate Knows(s: State, t: TxId)
    requires t in s.txs
  {
    var x := s.txs[t];
    var r := Rank(x.stage);
    && (r >= 2 ==> Agreed(x))
    && (r >= 3 && x.canvas.Some? ==>
          x.canvas.value in s.canvasLocks && s.canvasLocks[x.canvas.value] == t && x.canvas.value in s.canvases)
    && (r >= 4 ==> x.jobId in s.jobLocks && s.jobLocks[x.jobId] == t
                   && x.jobId in s.jobs && s.jobs[x.jobId].canvas == x.jobCanvas)
    && (r >= 5 ==> NodesOf(s, x.jobId) == x.nodes
                   && forall n :: n in x.nodes ==> n in s.nodeLocks && s.nodeLocks[n] == t)
    && (r >= 6 ==> s.jobs[x.jobId].status.Running?)
    && (r >= 7 ==> x.written == x.nodes.Keys)
  }

  predicate AllKnow(s: State) {
    forall t :: t in s.txs ==> Knows(s, t)
  }

  /** Nothing a transaction relies on has changed. */
  predicate Undisturbed(s: State, s': State, t: TxId) {
    && t in s.txs && t in s'.txs && s'.txs[t] == s.txs[t]
    && (forall c :: c in s.canvasLocks && s.canvasLocks[c] == t ==>
          c in s'.canvasLocks && s'.canvasLocks[c] == t && (c in s.canvases ==> c in s'.canvases))
    && (forall j :: j in s.jobLocks && s.jobLocks[j] == t ==>
          && j in s'.jobLocks && s'.jobLocks[j] == t
          && (j in s.jobs ==> j in s'.jobs && s'.jobs[j] == s.jobs[j]))
    && (forall n :: n in s.nodeLocks && s.nodeLocks[n] == t ==> n in s'.nodeLocks && s'.nodeLocks[n] == t)
    && (Rank(s.txs[t].stage) >= 5 ==> NodesOf(s', s.txs[t].jobId) == NodesOf(s, s.txs[t].jobId))
  }

  lemma UndisturbedKnows(s: State, s': State, t: TxId)
    requires Undisturbed(s, s', t) && Knows(s, t)
    ensures Knows(s', t)
  {
  }

  /** A transaction's own step. */
  predicate TxEvent(e: Event) {
    !(e.PutCanvas? || e.DropCanvas? || e.PutJob? || e.PutNode? || e.DropNode?)
  }

  lemma ReleasedUndisturbed(s: State, t: TxId, u: TxId)
    requires u in s.txs && u != t
    ensures Undisturbed(s, Released(s, t), u)
  {
  }

  lemma SameMembers(s: State, s': State, j: JobId)
    requires s'.nodes.Keys == s.nodes.Keys
    requires forall n :: n in s.nodes ==>
      s'.nodes[n].job == s.nodes[n].job && s'.nodes[n].canvas == s.nodes[n].canvas &&
        s'.nodes[n].converging == s.nodes[n].converging
    ensures NodesOf(s', j) == NodesOf(s, j)
  {
  }

  lemma CommitUndisturbed(s: State, t: TxId, u: TxId)
    requires At(s, t, Written) && Knows(s, t) && u in s.txs && u != t
    ensures Undisturbed(s, Committed(s, t), u)
  {
    ReleasedUndisturbed(s, t, u);
    var x, s' := s.txs[t], Committed(s, t);
    assert s'.nodes.Keys == s.nodes.Keys;
    SameMembers(s, s', s.txs[u].jobId);
    assert forall j :: j in s.jobLocks && s.jobLocks[j] == u ==> j != x.jobId;
  }

  lemma StepUndisturbed(s: State, e: Event, u: TxId)
    requires TxEvent(e) && !e.CommitTx? && !e.Abort? && Enabled(s, e) && u in s.txs && u != e.tx
    ensures Undisturbed(s, Next(s, e), u)
  {
    var s' := Next(s, e);
    if s' == Released(s, e.tx) {
      ReleasedUndisturbed(s, e.tx, u);
    } else {
      SameMembers(s, s', s.txs[u].jobId);
      LocksOnlyAdded(s, e, u);
    }
  }

  /** The rows are as before and `u` has its locks. */
  predicate OnlyAdds(s: State, s': State, u: TxId) {
    && u in s.txs && u in s'.txs && s'.txs[u] == s.txs[u] && s'.jobs == s.jobs && s'.canvases == s.canvases
    && (forall c :: c in s.canvasLocks && s.canvasLocks[c] == u ==> c in s'.canvasLocks && s'.canvasLocks[c] == u)
    && (forall j :: j in s.jobLocks && s.jobLocks[j] == u ==> j in s'.jobLocks && s'.jobLocks[j] == u)
    && (forall n :: n in s.nodeLocks && s.nodeLocks[n] == u ==> n in s'.nodeLocks && s'.nodeLocks[n] == u)
  }

  lemma LockNodesOnlyAdds(s: State, t: TxId, u: TxId)
    requires Enabled(s, LockNodes(t)) && u in s.txs && u != t && Next(s, LockNodes(t)) != Released(s, t)
    ensures OnlyAdds(s, Next(s, LockNodes(t)), u)
  {
  }

  lemma LockRowOnlyAdds(s: State, e: Event, u: TxId)
    requires (e.LockCanvas? || e.LockJob?) && Enabled(s, e) && u in s.txs && u != e.tx
    requires Next(s, e) != Released(s, e.tx)
    ensures OnlyAdds(s, Next(s, e), u)
  {
  }

  lemma LocksOnlyAdded(s: State, e: Event, u: TxId)
    requires TxEvent(e) && !e.CommitTx? && !e.Abort? && Enabled(s, e) && u in s.txs && u != e.tx
    requires Next(s, e) != Released(s, e.tx)
    ensures OnlyAdds(s, Next(s, e), u)
  {
    if e.LockNodes? {
      LockNodesOnlyAdds(s, e.tx, u);
    } else if e.LockCanvas? || e.LockJob? {
      LockRowOnlyAdds(s, e, u);
    }
  }

  lemma PutNodeSpares(s: State, node: NodeId, row: Node, u: TxId)
    requires Enabled(s, PutNode(node, row)) && u in s.txs && Knows(s, u) && Rank(s.txs[u].stage) >= 5
    ensures NodesOf(Next(s, PutNode(node, row)), s.txs[u].jobId) == NodesOf(s, s.txs[u].jobId)
  {
    assert node !in NodesOf(s, s.txs[u].jobId);
  }

  lemma DropNodeSpares(s: State, node: NodeId, u: TxId)
    requires Enabled(s, DropNode(node)) && u in s.txs && Knows(s, u) && Rank(s.txs[u].stage) >= 5
    ensures NodesOf(Next(s, DropNode(node)), s.txs[u].jobId) == NodesOf(s, s.txs[u].jobId)
  {
    assert node !in NodesOf(s, s.txs[u].jobId);
  }

  /** A stranger's write spares the rows of every transaction. */
  lemma WriteUndisturbed(s: State, e: Event, u: TxId)
    requires !TxEvent(e) && Enabled(s, e) && AllKnow(s) && u in s.txs
    ensures Undisturbed(s, Next(s, e), u)
  {
    assert Knows(s, u);
    if e.PutNode? {
      if Rank(s.txs[u].stage) >= 5 { PutNodeSpares(s, e.node, e.row, u); }
    } else if e.DropNode? {
      if Rank(s.txs[u].stage) >= 5 { DropNodeSpares(s, e.node, u); }
    } else {
      assert NodesOf(Next(s, e), s.txs[u].jobId) == NodesOf(s, s.txs[u].jobId);
    }
  }

  lemma CandidateAgrees(jobCanvas: Option<CanvasId>, nodes: map<NodeId, Option<CanvasId>>)
    requires Candidate(jobCanvas, nodes).Some?
    ensures var canvas := Candidate(jobCanvas, nodes).value;
            && (jobCanvas.Some? ==> canvas == jobCanvas)
            && (forall n :: n in nodes ==> nodes[n].Some? && nodes[n] == canvas)
  {
  }

  lemma ReadNodesKnows(s: State, t: TxId)
    requires Enabled(s, ReadNodes(t)) && Knows(s, t) && t in Next(s, ReadNodes(t)).txs
    ensures Knows(Next(s, ReadNodes(t)), t)
  {
    CandidateAgrees(s.txs[t].jobCanvas, NodesOf(s, s.txs[t].jobId));
  }

  lemma LockCanvasKnows(s: State, t: TxId)
    requires Enabled(s, LockCanvas(t)) && Knows(s, t) && t in Next(s, LockCanvas(t)).txs
    ensures Knows(Next(s, LockCanvas(t)), t)
  {
  }

  lemma ReadStepKnows(s: State, e: Event)
    requires e.Begin? || e.ReadJob? || e.ReadNodes? || e.LockCanvas?
    requires Enabled(s, e) && (e.Begin? || Knows(s, e.tx)) && e.tx in Next(s, e).txs
    ensures Knows(Next(s, e), e.tx)
  {
    if e.ReadNodes? {
      ReadNodesKnows(s, e.tx);
    } else if e.LockCanvas? {
      LockCanvasKnows(s, e.tx);
    }
  }

  lemma LockStepKnows(s: State, e: Event)
    requires e.LockJob? || e.LockNodes?
    requires Enabled(s, e) && Knows(s, e.tx) && e.tx in Next(s, e).txs
    ensures Knows(Next(s, e), e.tx)
  {
    var s' := Next(s, e);
    SameMembers(s, s', s.txs[e.tx].jobId);
  }

  lemma WriteStepKnows(s: State, e: Event)
    requires e.UpdateJob? || e.WriteNodes?
    requires Enabled(s, e) && Knows(s, e.tx) && e.tx in Next(s, e).txs
    ensures Knows(Next(s, e), e.tx)
  {
    var s' := Next(s, e);
    SameMembers(s, s', s.txs[e.tx].jobId);
  }

  lemma OwnStepKnows(s: State, e: Event)
    requires TxEvent(e) && Enabled(s, e) && (e.Begin? || Knows(s, e.tx)) && e.tx in Next(s, e).txs
    ensures Knows(Next(s, e), e.tx)
  {
    if e.Begin? || e.ReadJob? || e.ReadNodes? || e.LockCanvas? {
      ReadStepKnows(s, e);
    } else if e.LockJob? || e.LockNodes? {
      LockStepKnows(s, e);
    } else if e.UpdateJob? || e.WriteNodes? {
      WriteStepKnows(s, e);
    }
  }

  lemma NextKeepsKnowledge(s: State, e: Event)
    requires Enabled(s, e) && AllKnow(s)
    ensures AllKnow(Next(s, e))
  {
    var s' := Next(s, e);
    forall u | u in s'.txs
      ensures Knows(s', u)
    {
      if TxEvent(e) && u == e.tx {
        OwnStepKnows(s, e);
      } else {
        if !TxEvent(e) {
          WriteUndisturbed(s, e, u);
        } else if e.CommitTx? {
          CommitUndisturbed(s, e.tx, u);
        } else if e.Abort? {
          ReleasedUndisturbed(s, e.tx, u);
        } else {
          StepUndisturbed(s, e, u);
        }
        UndisturbedKnows(s, s', u);
      }
    }
  }

  /** Job and nodes were inside the one Canvas the transaction held, and the Job was running. */
  predicate InsideOneCanvas(c: Commit) {
    && c.from.Running?
    && (c.jobCanvas.Some? ==> c.jobCanvas == c.locked)
    && (forall n :: n in c.nodeCanvases ==> c.nodeCanvases[n].Some? && c.nodeCanvases[n] == c.locked)
  }

  predicate LogInv(s: State) {
    && (forall i :: 0 <= i < |s.log| ==> InsideOneCanvas(s.log[i]))
    && (forall i :: 0 <= i < |s.log| && s.log[i].status.Succeeded? ==>
          s.log[i].jobId in s.jobs && s.jobs[s.log[i].jobId].status.Succeeded?)
    && (forall i, k :: 0 <= i < k < |s.log| && s.log[i].status.Succeeded? ==> s.log[k].jobId != s.log[i].jobId)
  }

  lemma CommitKeepsLog(s: State, t: TxId)
    requires At(s, t, Written) && AllKnow(s) && LogInv(s)
    ensures LogInv(Committed(s, t))
    ensures var x := s.txs[t];
            |Committed(s, t).log| == |s.log| + 1 && Committed(s, t).log[|s.log|].nodeCanvases == x.nodes
  {
    assert Knows(s, t);
    var x := s.txs[t];
    var noted := map n | n in x.written && n in s.nodes :: s.nodes[n].canvas;
    assert noted == x.nodes by {
      assert NodesOf(s, x.jobId) == x.nodes;
      assert forall n :: n in x.nodes ==> n in s.nodes && s.nodes[n].canvas == x.nodes[n];
    }
  }

  lemma {:induction false} RunKeepsInv(es: seq<Event>)
    requires Run(es).Some?
    ensures AllKnow(Run(es).value) && LogInv(Run(es).value)
  {
    if es != [] {
      var s, e := Run(es[..|es|-1]).value, es[|es|-1];
      RunKeepsInv(es[..|es|-1]);
      NextKeepsKnowledge(s, e);
      if e.CommitTx? {
        CommitKeepsLog(s, e.tx);
      } else {
        OtherStepKeepsLog(s, e);
      }
    }
  }

  lemma OtherStepKeepsLog(s: State, e: Event)
    requires Enabled(s, e) && !e.CommitTx? && LogInv(s)
    ensures LogInv(Next(s, e))
  {
    assert Next(s, e).log == s.log;
    assert forall j :: j in s.jobs && s.jobs[j].status.Succeeded? ==>
      j in Next(s, e).jobs && Next(s, e).jobs[j].status.Succeeded?;
  }

  // ---------- Main results ----------

  /** Every finalization, in every run, found the Job running and wrote Job and nodes inside the one Canvas
      it had locked; without a Canvas there were no nodes to write. */
  lemma FinalizedInsideOneCanvas(es: seq<Event>, i: nat)
    requires Run(es).Some? && i < |Run(es).value.log|
    ensures InsideOneCanvas(Run(es).value.log[i])
  {
    RunKeepsInv(es);
  }

  /** A transaction about to commit holds its Canvas, its Job and all of the Job's converging nodes, and the
      rows it will write are exactly those nodes: nothing slipped in between the lock and the update. */
  lemma WritesExactlyTheLockedNodes(es: seq<Event>, t: TxId)
    requires Run(es).Some? && At(Run(es).value, t, Written)
    ensures var s := Run(es).value;
            var x := s.txs[t];
            && x.written == NodesOf(s, x.jobId).Keys
            && (forall n :: n in x.written ==> n in s.nodeLocks && s.nodeLocks[n] == t)
            && x.jobId in s.jobLocks && s.jobLocks[x.jobId] == t
            && (x.canvas.Some? ==> x.canvas.value in s.canvasLocks && s.canvasLocks[x.canvas.value] == t)
  {
    RunKeepsInv(es);
    assert Knows(Run(es).value, t);
  }

  /** Two finalizations of one Job never hold it together, and a success is the last one. */
  lemma OneFinalizerAtATime(es: seq<Event>, t: TxId, u: TxId)
    requires Run(es).Some? && t in Run(es).value.txs && u in Run(es).value.txs
    requires var s := Run(es).value;
             s.txs[t].jobId == s.txs[u].jobId && Rank(s.txs[t].stage) >= 4 && Rank(s.txs[u].stage) >= 4
    ensures t == u
  {
    RunKeepsInv(es);
    assert Knows(Run(es).value, t) && Knows(Run(es).value, u);
  }

  lemma SuccessIsLast(es: seq<Event>, i: nat, k: nat)
    requires Run(es).Some? && i < k < |Run(es).value.log| && Run(es).value.log[i].status.Succeeded?
    ensures Run(es).value.log[k].jobId != Run(es).value.log[i].jobId
  {
    RunKeepsInv(es);
  }

  // ---------- A finalization from end to end ----------

  /** The one Canvas the Job and its converging nodes agree on: the Job's if it has one, else the nodes', and
      none if there are no nodes either. */
  ghost predicate Coherent(jobCanvas: Option<CanvasId>, nodes: map<NodeId, Option<CanvasId>>, c: Option<CanvasId>) {
    && (jobCanvas.Some? ==> c == jobCanvas)
    && (forall n :: n in nodes ==> nodes[n].Some? && nodes[n] == c)
    && (jobCanvas.None? && nodes == map[] ==> c.None?)
  }

  lemma CandidateIff(jobCanvas: Option<CanvasId>, nodes: map<NodeId, Option<CanvasId>>)
    ensures Candidate(jobCanvas, nodes).Some? <==> exists c :: Coherent(jobCanvas, nodes, c)
    ensures Candidate(jobCanvas, nodes).Some? ==> Coherent(jobCanvas, nodes, Candidate(jobCanvas, nodes).value)
    ensures forall c :: Coherent(jobCanvas, nodes, c) ==> Candidate(jobCanvas, nodes) == Some(c)
  {
    if Candidate(jobCanvas, nodes).Some? {
      CandidateAgrees(jobCanvas, nodes);
      assert Coherent(jobCanvas, nodes, Candidate(jobCanvas, nodes).value);
    }
    forall c | Coherent(jobCanvas, nodes, c) ensures Candidate(jobCanvas, nodes) == Some(c) {
      if jobCanvas.None? && nodes != map[] {
        var n :| n in nodes;
        assert nodes[n] == c;
      }
    }
  }

  /** The rows a finalization of the Job needs are free. */
  ghost predicate Free(s: State, j: JobId) {
    && j !in s.jobLocks && (forall n :: n in NodesOf(s, j) ==> n !in s.nodeLocks)
    && forall c :: c in s.canvasLocks ==>
         && (j in s.jobs ==> s.jobs[j].canvas != Some(c))
         && forall n :: n in NodesOf(s, j) ==> s.nodes[n].canvas != Some(c)
  }

  /** The Job can be finalized: it runs, and agrees with its converging nodes on a Canvas that exists, or none. */
  ghost predicate Finalizable(s: State, j: JobId, c: Option<CanvasId>) {
    && j in s.jobs && s.jobs[j].status == Running
    && Coherent(s.jobs[j].canvas, map n | n in s.nodes && s.nodes[n].job == Some(j) && s.nodes[n].converging ::
                                      s.nodes[n].canvas, c)
    && (c.Some? ==> c.value in s.canvases)
  }

  /** The transaction is gone and has let go of its rows. */
  predicate Gone(s: State, t: TxId) {
    && t !in s.txs && (forall c :: c in s.canvasLocks ==> s.canvasLocks[c] != t)
    && (forall j :: j in s.jobLocks ==> s.jobLocks[j] != t) && (forall n :: n in s.nodeLocks ==> s.nodeLocks[n] != t)
  }

  lemma OneMore(es: seq<Event>, s: State, e: Event) returns (all: seq<Event>)
    requires Run(es) == Some(s) && Enabled(s, e)
    ensures all == es + [e] && Run(all) == Some(Next(s, e))
  {
    all := es + [e];
    assert all[..|es|] == es;
  }

  /**
   * One finalization that nobody disturbs, in any reachable state.  If the Job can be finalized, the Job and
   * exactly its converging nodes get the status, together; if not, no row changes.  Either way the
   * transaction is over and its locks are released.
   */
  lemma UndisturbedFinalization(es: seq<Event>, t: TxId, j: JobId, status: Status) returns (all: seq<Event>)
    requires Run(es).Some? && t !in Run(es).value.txs && status in {Succeeded, Failed} && Free(Run(es).value, j)
    ensures es <= all && Run(all).Some? && Gone(Run(all).value, t)
    ensures var s, u := Run(es).value, Run(all).value;
            && u.canvases == s.canvases && u.nodes.Keys == s.nodes.Keys
            && (if exists c :: Finalizable(s, j, c) then
                  && u.jobs == s.jobs[j := s.jobs[j].(status := status)]
                  && (forall n :: n in s.nodes ==>
                        u.nodes[n] == if s.nodes[n].job == Some(j) && s.nodes[n].converging
                                      then s.nodes[n].(status := Some(status)) else s.nodes[n])
                else u.jobs == s.jobs && u.nodes == s.nodes && u.log == s.log)
  {
    var s := Run(es).value;
    var es1 := OneMore(es, s, Begin(t, j, status));
    var es2 := OneMore(es1, Next(s, Begin(t, j, status)), ReadJob(t));
    if j !in s.jobs { return es2; }
    ReadJobStep(s, t, j, status);
    ReadNodesStep(s, t, j, status);
    var es3 := OneMore(es2, Next(Next(s, Begin(t, j, status)), ReadJob(t)), ReadNodes(t));
    FinalizableIff(s, j);
    if Candidate(s.jobs[j].canvas, NodesOf(s, j)).Some? {
      all := FromNodesRead(es3, s, t, j, status, Candidate(s.jobs[j].canvas, NodesOf(s, j)).value);
    } else {
      all := es3;
    }
  }

  lemma FinalizableIff(s: State, j: JobId)
    requires j in s.jobs
    ensures var candidate := Candidate(s.jobs[j].canvas, NodesOf(s, j));
            && (candidate.Some? ==> Coherent(s.jobs[j].canvas, NodesOf(s, j), candidate.value))
            && ((exists c :: Finalizable(s, j, c)) <==>
                  && candidate.Some? && s.jobs[j].status.Running?
                  && (candidate.value.Some? ==> candidate.value.value in s.canvases))
  {
    CandidateIff(s.jobs[j].canvas, NodesOf(s, j));
    var candidate := Candidate(s.jobs[j].canvas, NodesOf(s, j));
    if candidate.Some? && s.jobs[j].status.Running? && (candidate.value.Some? ==> candidate.value.value in s.canvases) {
      assert Finalizable(s, j, candidate.value);
    }
  }

  lemma ReadJobStep(s: State, t: TxId, j: JobId, status: Status)
    requires j in s.jobs && t !in s.txs && status in {Succeeded, Failed}
    ensures Next(Next(s, Begin(t, j, status)), ReadJob(t)) ==
            WithTx(s, t, Tx(j, status, JobRead, s.jobs[j].canvas, map[], None, {}))
  {
    var s1, s2 := Next(s, Begin(t, j, status)), WithTx(s, t, Tx(j, status, JobRead, s.jobs[j].canvas, map[], None, {}));
    assert s1.txs[t := s2.txs[t]] == s2.txs;
  }

  lemma ReadNodesStep(s: State, t: TxId, j: JobId, status: Status)
    requires j in s.jobs
    ensures var s2 := WithTx(s, t, Tx(j, status, JobRead, s.jobs[j].canvas, map[], None, {}));
            var candidate := Candidate(s.jobs[j].canvas, NodesOf(s, j));
            && Enabled(s2, ReadNodes(t))
            && (candidate.Some? ==>
                  Next(s2, ReadNodes(t)) ==
                  WithTx(s, t, Tx(j, status, NodesRead, s.jobs[j].canvas, NodesOf(s, j), candidate.value, {})))
            && (candidate.None? ==> Next(s2, ReadNodes(t)) == Released(s2, t))
  {
    var s2 := WithTx(s, t, Tx(j, status, JobRead, s.jobs[j].canvas, map[], None, {}));
    assert NodesOf(s2, j) == NodesOf(s, j);
  }

  function WithTx(s: State, t: TxId, x: Tx): State { s.(txs := s.txs[t := x]) }

  /** What the undisturbed finalization comes to, as far as the rows go. */
  ghost predicate Ends(s: State, u: State, t: TxId, j: JobId, status: Status, done: bool) {
    && Gone(u, t) && u.canvases == s.canvases && u.nodes.Keys == s.nodes.Keys
    && (if done then
          && j in s.jobs && u.jobs == s.jobs[j := s.jobs[j].(status := status)]
          && (forall n :: n in s.nodes ==>
                u.nodes[n] == if s.nodes[n].job == Some(j) && s.nodes[n].converging
                              then s.nodes[n].(status := Some(status)) else s.nodes[n])
        else u.jobs == s.jobs && u.nodes == s.nodes && u.log == s.log)
  }

  lemma FromNodesRead(es: seq<Event>, s: State, t: TxId, j: JobId, status: Status, c: Option<CanvasId>)
    returns (all: seq<Event>)
    requires j in s.jobs && Free(s, j) && Coherent(s.jobs[j].canvas, NodesOf(s, j), c)
    requires Run(es) == Some(WithTx(s, t, Tx(j, status, NodesRead, s.jobs[j].canvas, NodesOf(s, j), c, {})))
    ensures es <= all && Run(all).Some?
    ensures Ends(s, Run(all).value, t, j, status, s.jobs[j].status.Running? && (c.Some? ==> c.value in s.canvases))
  {
    var x := Tx(j, status, NodesRead, s.jobs[j].canvas, NodesOf(s, j), c, {});
    CanvasIsFree(s, j, c);
    var es4 := OneMore(es, WithTx(s, t, x), LockCanvas(t));
    if c.Some? && c.value !in s.canvases { return es4; }
    var locks := if c.Some? then s.canvasLocks[c.value := t] else s.canvasLocks;
    LockCanvasStep(s, t, x, locks);
    all := FromCanvasLocked(es4, s, t, x.(stage := CanvasLocked), j, locks);
  }

  lemma FromCanvasLocked(es: seq<Event>, s: State, t: TxId, x: Tx, j: JobId, locks: map<CanvasId, TxId>)
    returns (all: seq<Event>)
    requires Run(es) == Some(WithTx(s, t, x).(canvasLocks := locks)) && j in s.jobs && Free(s, j)
    requires x.stage == CanvasLocked && x.jobId == j && x.jobCanvas == s.jobs[j].canvas && x.nodes == NodesOf(s, j)
    requires forall n :: n in x.nodes ==> x.nodes[n] == x.canvas
    ensures es <= all && Run(all).Some?
    ensures Ends(s, Run(all).value, t, j, x.status, s.jobs[j].status.Running?)
  {
    var s4 := Run(es).value;
    LockJobStep(s, t, x, j, locks);
    var es5 := OneMore(es, s4, LockJob(t));
    LockNodesStep(s, t, x.(stage := JobLocked), j, locks);
    var s5 := Next(s4, LockJob(t));
    var es6 := OneMore(es5, s5, LockNodes(t));
    var s6 := Next(s5, LockNodes(t));
    all := FromNodesLocked(es6, s6, t, j, x.status);
    SameRowsEnd(s, s6, Run(all).value, t, j, x.status, s.jobs[j].status.Running?);
  }

  lemma SameRowsEnd(s: State, s': State, u: State, t: TxId, j: JobId, status: Status, done: bool)
    requires s'.jobs == s.jobs && s'.nodes == s.nodes && s'.canvases == s.canvases && s'.log == s.log
    requires Ends(s', u, t, j, status, done)
    ensures Ends(s, u, t, j, status, done)
  {
  }

  lemma LockCanvasStep(s: State, t: TxId, x: Tx, locks: map<CanvasId, TxId>)
    requires x.stage == NodesRead
    requires x.canvas.Some? ==> x.canvas.value in s.canvases && x.canvas.value !in s.canvasLocks
    requires locks == if x.canvas.Some? then s.canvasLocks[x.canvas.value := t] else s.canvasLocks
    ensures Enabled(WithTx(s, t, x), LockCanvas(t))
    ensures Next(WithTx(s, t, x), LockCanvas(t)) == WithTx(s, t, x.(stage := CanvasLocked)).(canvasLocks := locks)
  {
    assert WithTx(s, t, x).txs[t := x.(stage := CanvasLocked)] == s.txs[t := x.(stage := CanvasLocked)];
  }

  lemma LockJobStep(s: State, t: TxId, x: Tx, j: JobId, locks: map<CanvasId, TxId>)
    requires x.stage == CanvasLocked && x.jobId == j && j in s.jobs && j !in s.jobLocks
    requires x.jobCanvas == s.jobs[j].canvas
    ensures var s4 := WithTx(s, t, x).(canvasLocks := locks);
            && Enabled(s4, LockJob(t))
            && Next(s4, LockJob(t)) ==
               WithTx(s, t, x.(stage := JobLocked)).(canvasLocks := locks, jobLocks := s.jobLocks[j := t])
  {
    assert WithTx(s, t, x).txs[t := x.(stage := JobLocked)] == s.txs[t := x.(stage := JobLocked)];
  }

  lemma LockNodesStep(s: State, t: TxId, x: Tx, j: JobId, locks: map<CanvasId, TxId>)
    requires j in s.jobs && Free(s, j) && x.stage == JobLocked && x.jobId == j && x.nodes == NodesOf(s, j)
    requires forall n :: n in x.nodes ==> x.nodes[n] == x.canvas
    ensures var s5 := WithTx(s, t, x).(canvasLocks := locks, jobLocks := s.jobLocks[j := t]);
            && Enabled(s5, LockNodes(t))
            && var s6 := Next(s5, LockNodes(t));
            && s6.txs == s.txs[t := x.(stage := NodesLocked)]
            && s6.jobs == s.jobs && s6.nodes == s.nodes && s6.canvases == s.canvases && s6.log == s.log
  {
    var s5 := WithTx(s, t, x).(canvasLocks := locks, jobLocks := s.jobLocks[j := t]);
    assert NodesOf(s5, j) == NodesOf(s, j);
  }

  lemma CanvasIsFree(s: State, j: JobId, c: Option<CanvasId>)
    requires j in s.jobs && Free(s, j) && Coherent(s.jobs[j].canvas, NodesOf(s, j), c)
    ensures c.Some? ==> c.value !in s.canvasLocks
  {
    if c.Some? && s.jobs[j].canvas.None? {
      var n :| n in NodesOf(s, j);
      assert s.nodes[n].canvas == c;
    }
  }

  lemma FromNodesLocked(es: seq<Event>, s: State, t: TxId, j: JobId, status: Status) returns (all: seq<Event>)
    requires Run(es) == Some(s) && j in s.jobs
    requires t in s.txs && s.txs[t].stage == NodesLocked && s.txs[t].jobId == j && s.txs[t].status == status
    ensures es <= all && Run(all).Some? && Ends(s, Run(all).value, t, j, status, s.jobs[j].status.Running?)
  {
    var es1 := OneMore(es, s, UpdateJob(t));
    if !s.jobs[j].status.Running? { return es1; }
    var s1 := Next(s, UpdateJob(t));
    var es2 := OneMore(es1, s1, WriteNodes(t));
    all := OneMore(es2, Next(s1, WriteNodes(t)), CommitTx(t));
    WritesEnd(s, s1, t, j, status);
  }

  lemma WritesEnd(s: State, s1: State, t: TxId, j: JobId, status: Status)
    requires j in s.jobs && t in s1.txs && s1 == s.(txs := s1.txs)
    requires s1.txs[t].stage == Updated && s1.txs[t].jobId == j && s1.txs[t].status == status
    ensures Ends(s, Next(Next(s1, WriteNodes(t)), CommitTx(t)), t, j, status, true)
  {
    assert Next(s1, WriteNodes(t)).txs[t].written == NodesOf(s, j).Keys;
  }

  // ---------- Changes between the reads and the locks ----------

  /** A Canvas dropped after the reads ends the finalization without a trace. */
  lemma DroppedCanvasAborts(s: State, t: TxId, c: CanvasId)
    requires At(s, t, NodesRead) && s.txs[t].canvas == Some(c) && Enabled(s, DropCanvas(c))
    ensures var dropped := Next(s, DropCanvas(c));
            && Enabled(dropped, LockCanvas(t))
            && var u := Next(dropped, LockCanvas(t));
            Gone(u, t) && u.canvases == s.canvases - {c} && u.jobs == s.jobs && u.nodes == s.nodes && u.log == s.log
  {
  }

  /** So does a Job moved to another Canvas before it is locked, */
  lemma MovedJobAborts(s: State, t: TxId, job: Job)
    requires At(s, t, CanvasLocked) && Enabled(s, PutJob(s.txs[t].jobId, job)) && job.canvas != s.txs[t].jobCanvas
    ensures var j := s.txs[t].jobId;
            var moved := Next(s, PutJob(j, job));
            && Enabled(moved, LockJob(t))
            && var u := Next(moved, LockJob(t));
            Gone(u, t) && u.jobs == s.jobs[j := job] && u.nodes == s.nodes && u.log == s.log
  {
  }

  /** and a node moved, given away or dropped before the nodes are locked. */
  lemma MovedNodeAborts(s: State, t: TxId, n: NodeId, e: Event)
    requires At(s, t, JobLocked) && n in s.txs[t].nodes && Enabled(s, e)
    requires e == DropNode(n) || (e.PutNode? && e.node == n && e.row.canvas != s.txs[t].nodes[n])
    requires Enabled(Next(s, e), LockNodes(t))
    ensures var u := Next(Next(s, e), LockNodes(t));
            && Gone(u, t) && u.jobs == s.jobs && u.log == s.log
            && u.nodes == if e.PutNode? then s.nodes[n := e.row] else s.nodes - {n}
  {
    assert NodesOf(Next(s, e), s.txs[t].jobId) != s.txs[t].nodes;
  }
}
