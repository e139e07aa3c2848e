/**
 * Explicit row locks of the scheduler's transactions: finalization and verify recovery
 * (apps/scheduler/src/core.ts), lease renewal (apps/scheduler/src/attempt-lease.ts) and the
 * shared-asset publish check (apps/scheduler/src/core.ts).
 *
 * Each transaction is a sequence of locking statements.  A statement fixes the rows it will lock, in the
 * order of its ORDER BY, and takes them one at a time; a transaction keeps what it holds to its end.
 */
module LockOrder {
  import opened Options

  /** Keys are positions in the order the statements sort by. */
  datatype Row =
    | CanvasRow(id: nat)
    | JobRow(id: nat)
    | NodeRow(id: nat)
    | AttemptRow(job: nat, no: nat)

  function Class(r: Row): nat {
    match r
    case CanvasRow(_) => 0
    case JobRow(_) => 1
    case NodeRow(_) => 2
    case AttemptRow(_, _) => 3
  }

  function Key(r: Row): nat {
    match r
    case AttemptRow(_, no) => no
    case _ => r.id
  }

  predicate Before(a: Row, b: Row) {
    Class(a) < Class(b) || (Class(a) == Class(b) && Key(a) < Key(b))
  }

  predicate Ascending(rs: seq<Row>) {
    forall i, j :: 0 <= i < j < |rs| ==> Before(rs[i], rs[j])
  }

  datatype Kind = Finalize | VerifyRecovery | Renewal | PublishCheck

  /** `canvas` is None when the Job has no Canvas to lock; `next` numbers the statement that comes next. */
  datatype Tx = Tx(kind: Kind, canvas: Option<nat>, job: nat, next: nat, held: seq<Row>, queue: seq<Row>)

  /** The rows statement number `n` of a transaction may lock. */
  predicate StatementLocks(kind: Kind, canvas: Option<nat>, job: nat, n: nat, rows: seq<Row>) {
    match kind
    case Finalize =>
      if n == 0 then rows == (if canvas.Some? then [CanvasRow(canvas.value)] else [])
      else if n == 1 then rows == [JobRow(job)]
      else n == 2 && Ascending(rows) && forall r :: r in rows ==> r.NodeRow?
    case VerifyRecovery =>
      if n == 0 then rows == (if canvas.Some? then [CanvasRow(canvas.value)] else [])
      else if n == 1 then rows == [JobRow(job)]
      else n == 2 && Ascending(rows) && forall r :: r in rows ==> r.AttemptRow? && r.job == job
    case Renewal =>
      if n == 0 then rows == [JobRow(job)]
      else n == 1 && |rows| <= 1 && forall r :: r in rows ==> r.AttemptRow? && r.job == job
    case PublishCheck => n == 0 && rows == [JobRow(job)]
  }

  type State = map<nat, Tx>

  datatype Event =
    | Begin(id: nat, kind: Kind, canvas: Option<nat>, job: nat)
    | Issue(id: nat, rows: seq<Row>)     // the next locking statement
    | Take(id: nat)                      // the first row it waits for
    | End(id: nat)                       // commit or rollback, at any time: the locks go

  predicate Free(s: State, r: Row) {
    forall id :: id in s ==> r !in s[id].held
  }

  predicate Enabled(s: State, e: Event) {
    match e
    case Begin(id, _, _, _) => id !in s
    case Issue(id, rows) =>
      id in s && s[id].queue == [] && StatementLocks(s[id].kind, s[id].canvas, s[id].job, s[id].next, rows)
    case Take(id) => id in s && s[id].queue != [] && Free(s, s[id].queue[0])
    case End(id) => id in s
  }

  function Next(s: State, e: Event): State
    requires Enabled(s, e)
  {
    match e
    case Begin(id, kind, canvas, job) => s[id := Tx(kind, canvas, job, 0, [], [])]
    case Issue(id, rows) => s[id := s[id].(next := s[id].next + 1, queue := rows)]
    case Take(id) => s[id := s[id].(held := s[id].held + [s[id].queue[0]], queue := s[id].queue[1..])]
    case End(id) => s - {id}
  }

  function Run(es: seq<Event>): Option<State> {
    if es == [] then Some(map[])
    else
      match Run(es[..|es|-1])
      case None => None
      case Some(s) => if Enabled(s, es[|es|-1]) then Some(Next(s, es[|es|-1])) else None
  }

  // ---------- What every step keeps ----------

  /** The class of the rows a later statement can lock. */
  function NextClass(kind: Kind, n: nat): nat {
    match kind
    case Finalize => if n == 0 then 0 else if n == 1 then 1 else if n == 2 then 2 else 4
    case VerifyRecovery => if n == 0 then 0 else if n == 1 then 1 else if n == 2 then 3 else 4
    case Renewal => if n == 0 then 1 else if n == 1 then 3 else 4
    case PublishCheck => if n == 0 then 1 else 4
  }

  predicate TxInOrder(t: Tx) {
    && Ascending(t.held + t.queue)
    && forall r :: r in t.held + t.queue ==> Class(r) < NextClass(t.kind, t.next)
  }

  predicate Inv(s: State) {
    && (forall id :: id in s ==> TxInOrder(s[id]))
    && (forall a, b, r :: a in s && b in s && r in s[a].held && r in s[b].held ==> a == b)
  }

  lemma IssueInOrder(t: Tx, rows: seq<Row>)
    requires TxInOrder(t) && t.queue == [] && StatementLocks(t.kind, t.canvas, t.job, t.next, rows)
    ensures TxInOrder(t.(next := t.next + 1, queue := rows))
  {
    assert t.held + t.queue == t.held;
    assert forall r :: r in rows ==> Class(r) == NextClass(t.kind, t.next);
    assert Ascending(rows);
    var all := t.held + rows;
    assert forall i :: 0 <= i < |t.held| ==> t.held[i] in t.held;
    assert forall i :: |t.held| <= i < |all| ==> all[i] == rows[i - |t.held|] && rows[i - |t.held|] in rows;
  }

  lemma TakeInOrder(t: Tx)
    requires TxInOrder(t) && t.queue != []
    ensures TxInOrder(t.(held := t.held + [t.queue[0]], queue := t.queue[1..]))
  {
    assert t.held + [t.queue[0]] + t.queue[1..] == t.held + t.queue;
  }

  lemma NextKeepsInv(s: State, e: Event)
    requires Enabled(s, e) && Inv(s)
    ensures Inv(Next(s, e))
  {
    match e
    case Issue(id, rows) => IssueInOrder(s[id], rows);
    case Take(id) => TakeInOrder(s[id]);
    case _ =>
  }

  lemma {:induction false} RunKeepsInv(es: seq<Event>)
    requires Run(es).Some?
    ensures Inv(Run(es).value)
  {
    if es != [] {
      RunKeepsInv(es[..|es|-1]);
      NextKeepsInv(Run(es[..|es|-1]).value, es[|es|-1]);
    }
  }

  // ---------- Main results ----------

  predicate Waiting(s: State, a: nat) {
    a in s && s[a].queue != [] && !Free(s, s[a].queue[0])
  }

  predicate WaitsFor(s: State, a: nat, b: nat) {
    a in s && b in s && s[a].queue != [] && s[a].queue[0] in s[b].held
  }

  predicate Cycle(s: State, c: seq<nat>) {
    && c != []
    && (forall i :: 0 <= i < |c| - 1 ==> WaitsFor(s, c[i], c[i+1]))
    && WaitsFor(s, c[|c|-1], c[0])
  }

  /** Along a chain of waits the rows waited for ascend. */
  lemma {:induction false} WaitsAscend(s: State, c: seq<nat>, n: nat)
    requires Inv(s) && n < |c|
    requires forall i :: 0 <= i < |c| - 1 ==> WaitsFor(s, c[i], c[i+1])
    requires c[0] in s && s[c[0]].queue != [] && c[|c|-1] in s && s[c[|c|-1]].queue != []
    ensures c[n] in s && s[c[n]].queue != []
    ensures n == 0 || Before(s[c[0]].queue[0], s[c[n]].queue[0])
  {
    if n > 0 {
      WaitsAscend(s, c, n - 1);
      assert WaitsFor(s, c[n-1], c[n]);
      if n < |c| - 1 {
        assert WaitsFor(s, c[n], c[n+1]);
      }
      HeldBeforeWaited(s[c[n]], s[c[n-1]].queue[0]);
    }
  }

  lemma HeldBeforeWaited(t: Tx, r: Row)
    requires TxInOrder(t) && r in t.held && t.queue != []
    ensures Before(r, t.queue[0])
  {
    var all := t.held + t.queue;
    var i :| 0 <= i < |t.held| && t.held[i] == r;
    assert all[i] == r && all[|t.held|] == t.queue[0];
  }

  /** No reachable state has transactions waiting in a circle. */
  lemma NoCyclicWait(es: seq<Event>, c: seq<nat>)
    requires Run(es).Some?
    ensures !Cycle(Run(es).value, c)
  {
    var s := Run(es).value;
    RunKeepsInv(es);
    if Cycle(s, c) {
      assert WaitsFor(s, c[|c|-1], c[0]);
      assert s[c[0]].queue != [] by {
        if |c| > 1 {
          assert WaitsFor(s, c[0], c[0+1]);
        }
      }
      WaitsAscend(s, c, |c| - 1);
      HeldBeforeWaited(s[c[0]], s[c[|c|-1]].queue[0]);
    }
  }

  /** Among waiting transactions one waits for a row before which no other waits. */
  lemma {:induction false} FurthestWaiting(s: State, ids: set<nat>) returns (top: nat)
    requires ids != {} && forall id :: id in ids ==> id in s && s[id].queue != []
    ensures top in ids && forall id :: id in ids ==> !Before(s[top].queue[0], s[id].queue[0])
    decreases |ids|
  {
    var x :| x in ids;
    var rest := ids - {x};
    assert ids == rest + {x};
    if rest == {} {
      top := x;
    } else {
      var y := FurthestWaiting(s, rest);
      top := if Before(s[y].queue[0], s[x].queue[0]) then x else y;
    }
  }

  /** Whenever transactions are open, one of them is not waiting: it can take its next row, issue its next
      statement or end. */
  lemma SomeoneMoves(es: seq<Event>)
    requires Run(es).Some? && Run(es).value != map[]
    ensures exists id :: id in Run(es).value && !Waiting(Run(es).value, id)
  {
    var s := Run(es).value;
    RunKeepsInv(es);
    var ids := set id | id in s && s[id].queue != [];
    if ids == {} {
      var id :| id in s;
      assert id !in ids;
      assert !Waiting(s, id);
    } else {
      var top := FurthestWaiting(s, ids);
      if Waiting(s, top) {
        var holder :| holder in s && s[top].queue[0] in s[holder].held;
        if Waiting(s, holder) {
          HeldBeforeWaited(s[holder], s[top].queue[0]);
          assert false;
        }
      }
    }
  }

  // ---------- What undisturbed transactions lock ----------

  lemma OneMore(es: seq<Event>, s: State, e: Event) returns (all: seq<Event>)
    requires Run(es) == Some(s) && Enabled(s, e)
    ensures all == es + [e] && Run(all) == Some(Next(s, e))
  {
    all := es + [e];
    assert all[..|es|] == es;
  }

  lemma UpdatedTwice(s: State, id: nat, a: Tx, b: Tx)
    ensures s[id := a][id := b] == s[id := b]
  {
  }

  /** A transaction gets the rows it waits for, in their order, if nobody else has them. */
  lemma {:induction false} QueueIsTaken(es: seq<Event>, s: State, id: nat) returns (all: seq<Event>)
    requires Run(es) == Some(s) && id in s && forall r :: r in s[id].queue ==> Free(s, r)
    ensures es <= all && Run(all) == Some(s[id := s[id].(held := s[id].held + s[id].queue, queue := [])])
    decreases |s[id].queue|
  {
    var t := s[id];
    if t.queue == [] {
      assert t.held + t.queue == t.held && s[id := t] == s;
      all := es;
    } else {
      RunKeepsInv(es);
      var s' := Next(s, Take(id));
      var es' := OneMore(es, s, Take(id));
      var asked := t.held + t.queue;
      forall r | r in t.queue[1..] ensures Free(s', r) {
        var i :| 0 <= i < |t.queue| - 1 && t.queue[1..][i] == r;
        assert r == t.queue[i + 1] && asked[|t.held|] == t.queue[0] && asked[|t.held| + i + 1] == r;
        assert r in t.queue && Before(t.queue[0], r);
      }
      all := QueueIsTaken(es', s', id);
      assert t.held + [t.queue[0]] + t.queue[1..] == t.held + t.queue;
      UpdatedTwice(s, id, s'[id], t.(held := t.held + t.queue, queue := []));
    }
  }

  lemma StatementIsTaken(es: seq<Event>, s: State, id: nat, rows: seq<Row>) returns (all: seq<Event>)
    requires Run(es) == Some(s) && id in s && s[id].queue == []
    requires StatementLocks(s[id].kind, s[id].canvas, s[id].job, s[id].next, rows)
    requires forall r :: r in rows ==> Free(s, r)
    ensures es <= all
    ensures Run(all) == Some(s[id := s[id].(next := s[id].next + 1, held := s[id].held + rows, queue := [])])
  {
    var s' := Next(s, Issue(id, rows));
    var es' := OneMore(es, s, Issue(id, rows));
    forall r | r in rows ensures Free(s', r) {
      assert forall i :: i in s ==> s'[i].held == s[i].held;
    }
    all := QueueIsTaken(es', s', id);
    var t := s[id];
    UpdatedTwice(s, id, s'[id], t.(next := t.next + 1, held := t.held + rows, queue := []));
  }

  /** The rows the statements of a transaction lock, one statement after the other; `last` are the nodes or
      attempts its last one finds. */
  function Wanted(kind: Kind, canvas: Option<nat>, job: nat, last: seq<Row>): seq<Row> {
    match kind
    case Finalize => (if canvas.Some? then [CanvasRow(canvas.value)] else []) + [JobRow(job)] + last
    case VerifyRecovery => (if canvas.Some? then [CanvasRow(canvas.value)] else []) + [JobRow(job)] + last
    case Renewal => [JobRow(job)] + last
    case PublishCheck => [JobRow(job)]
  }

  /** The last statement finds nodes for a finalization, attempts of the Job for a recovery, and its latest
      attempt, if any, for a renewal. */
  predicate Finds(kind: Kind, job: nat, last: seq<Row>) {
    match kind
    case Finalize =>
      && (forall i :: 0 <= i < |last| ==> last[i].NodeRow?)
      && forall i, k :: 0 <= i < k < |last| ==> last[i].id < last[k].id
    case VerifyRecovery =>
      && (forall i :: 0 <= i < |last| ==> last[i].AttemptRow? && last[i].job == job)
      && forall i, k :: 0 <= i < k < |last| ==> last[i].no < last[k].no
    case Renewal => |last| <= 1 && forall r :: r in last ==> r.AttemptRow? && r.job == job
    case PublishCheck => last == []
  }

  /** A transaction that finds its rows free comes to hold exactly them, in their order, until it ends; no other
      transaction is touched, and no two ever hold one row. */
  lemma UndisturbedLocks(es: seq<Event>, id: nat, kind: Kind, canvas: Option<nat>, job: nat, last: seq<Row>)
    returns (all: seq<Event>)
    requires Run(es).Some? && id !in Run(es).value && Finds(kind, job, last)
    requires forall r :: r in Wanted(kind, canvas, job, last) ==> Free(Run(es).value, r)
    ensures es <= all && Run(all).Some? && id in Run(all).value && Enabled(Run(all).value, End(id))
    ensures var s, u := Run(es).value, Run(all).value;
            && u[id].held == Wanted(kind, canvas, job, last) && u[id].queue == []
            && u - {id} == s && Next(u, End(id)) == s
            && (forall a, b, r :: a in u && b in u && r in u[a].held && r in u[b].held ==> a == b)
  {
    var s := Run(es).value;
    var s0 := Next(s, Begin(id, kind, canvas, job));
    var es0 := OneMore(es, s, Begin(id, kind, canvas, job));
    all := StatementsAreTaken(es0, s0, id, last);
    RunKeepsInv(all);
    assert Run(all).value - {id} == s;
  }

  /** All statements of a transaction that has just begun. */
  lemma StatementsAreTaken(es: seq<Event>, s: State, id: nat, last: seq<Row>) returns (all: seq<Event>)
    requires Run(es) == Some(s) && id in s && s[id] == Tx(s[id].kind, s[id].canvas, s[id].job, 0, [], [])
    requires Finds(s[id].kind, s[id].job, last)
    requires forall r :: r in Wanted(s[id].kind, s[id].canvas, s[id].job, last) ==> Free(s, r)
    ensures es <= all && Run(all).Some?
    ensures var u := Run(all).value;
            && u.Keys == s.Keys && (forall i :: i in s && i != id ==> u[i] == s[i])
            && u[id].held == Wanted(s[id].kind, s[id].canvas, s[id].job, last) && u[id].queue == []
  {
    var t := s[id];
    var first := if t.canvas.Some? then [CanvasRow(t.canvas.value)] else [];
    var wanted := Wanted(t.kind, t.canvas, t.job, last);
    if t.kind.Finalize? || t.kind.VerifyRecovery? {
      assert wanted == first + [JobRow(t.job)] + last == [] + first + [JobRow(t.job)] + last;
      all := ThreeStatements(es, s, id, first, [JobRow(t.job)], last);
    } else if t.kind.Renewal? {
      assert wanted == [] + [JobRow(t.job)] + last;
      all := TwoStatements(es, s, id, [JobRow(t.job)], last);
    } else {
      assert wanted == [] + [JobRow(t.job)];
      all := StatementIsTaken(es, s, id, [JobRow(t.job)]);
    }
  }

  lemma TwoStatements(es: seq<Event>, s: State, id: nat, a: seq<Row>, b: seq<Row>) returns (all: seq<Event>)
    requires Run(es) == Some(s) && id in s && s[id].queue == []
    requires var t := s[id];
             && StatementLocks(t.kind, t.canvas, t.job, t.next, a)
             && StatementLocks(t.kind, t.canvas, t.job, t.next + 1, b)
    requires forall r :: r in a + b ==> Free(s, r)
    ensures es <= all
    ensures Run(all) == Some(s[id := s[id].(next := s[id].next + 2, held := s[id].held + a + b, queue := [])])
  {
    var es1 := StatementIsTaken(es, s, id, a);
    var s1 := Run(es1).value;
    NextStillFree(es1, s, s1, id, a, b);
    all := StatementIsTaken(es1, s1, id, b);
    var t := s[id];
    UpdatedTwice(s, id, s1[id], t.(next := t.next + 2, held := t.held + a + b, queue := []));
  }

  lemma ThreeStatements(es: seq<Event>, s: State, id: nat, a: seq<Row>, b: seq<Row>, c: seq<Row>)
    returns (all: seq<Event>)
    requires Run(es) == Some(s) && id in s && s[id].queue == []
    requires var t := s[id];
             && StatementLocks(t.kind, t.canvas, t.job, t.next, a)
             && StatementLocks(t.kind, t.canvas, t.job, t.next + 1, b)
             && StatementLocks(t.kind, t.canvas, t.job, t.next + 2, c)
    requires forall r :: r in a + b + c ==> Free(s, r)
    ensures es <= all
    ensures Run(all) == Some(s[id := s[id].(next := s[id].next + 3, held := s[id].held + a + b + c, queue := [])])
  {
    var es1 := StatementIsTaken(es, s, id, a);
    var s1 := Run(es1).value;
    NextStillFree(es1, s, s1, id, a, b);
    NextStillFree(es1, s, s1, id, a, c);
    all := TwoStatements(es1, s1, id, b, c);
    var t := s[id];
    UpdatedTwice(s, id, s1[id], t.(next := t.next + 3, held := t.held + a + b + c, queue := []));
  }

  /** Rows of a later class are free still. */
  lemma NextStillFree(es: seq<Event>, s: State, s1: State, id: nat, a: seq<Row>, b: seq<Row>)
    requires Run(es) == Some(s1) && id in s
    requires s1 == s[id := s[id].(next := s[id].next + 1, held := s[id].held + a, queue := [])]
    requires forall r :: r in b ==> Free(s, r) && r !in a
    ensures forall r :: r in b ==> Free(s1, r)
  {
  }
}
