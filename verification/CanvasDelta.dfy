/**
 * Compaction of a canvas change log (apps/scheduler/src/canvas-delta.ts, `buildCanvasDelta`) against the
 * client that applies it (apps/web/src/canvas-sync.ts, `applyCanvasDelta`).
 *
 * A row carries the outcome of its projection: None when the row cannot be projected.  Field-by-field
 * projection and the lifecycle rollup of the envelope are not part of this model.
 */
module CanvasDelta {
  import opened Options
  import opened OrderedMaps

  /** `body` is what a hydrated copy keeps, `shape` what a summary overrides. */
  datatype Node = Node(id: string, shape: nat, body: nat)

  datatype Edge = Edge(id: string, from: string, to: string, kind: string)

  datatype Meta = Meta(id: string, title: string, status: string)

  datatype Row =
    | NodeUpsert(id: string, node: Option<Node>)
    | NodeDelete(id: string)
    | EdgeUpsert(id: string, edge: Option<Edge>)
    | EdgeDelete(id: string)
    | MetaUpsert(id: string, meta: Option<Meta>)
    | MetaDelete(id: string)

  datatype Delta = Delta(upper: nat, floor: nat,
                         upsertNodes: seq<Node>, deleteNodes: seq<string>,
                         upsertEdges: seq<Edge>, deleteEdges: seq<string>, upsertMeta: seq<Meta>)

  /** The final operation on one entity. */
  datatype Change<V> = Gone | Now(value: V)

  // ---------- Building a delta ----------

  datatype Changes = Changes(nodes: Ordered<Change<Node>>, edges: Ordered<Change<Edge>>, metas: Ordered<Meta>)

  function Absorb(c: Changes, row: Row): Changes {
    match row
    case NodeDelete(id) => c.(nodes := Put(c.nodes, id, Gone))
    case NodeUpsert(id, node) => if node.Some? then c.(nodes := Put(c.nodes, id, Now(node.value))) else c
    case EdgeDelete(id) => c.(edges := Put(c.edges, id, Gone))
    case EdgeUpsert(id, edge) => if edge.Some? then c.(edges := Put(c.edges, id, Now(edge.value))) else c
    case MetaUpsert(id, meta) => if meta.Some? then c.(metas := Put(c.metas, id, meta.value)) else c
    case MetaDelete(_) => c
  }

  function Reduce(rows: seq<Row>): Changes {
    if rows == [] then Changes([], [], [])
    else Absorb(Reduce(rows[..|rows|-1]), rows[|rows|-1])
  }

  function Kept<V>(m: Ordered<Change<V>>): seq<V> {
    if m == [] then [] else (if m[0].1.Now? then [m[0].1.value] else []) + Kept(m[1..])
  }

  function Dropped<V>(m: Ordered<Change<V>>): seq<string> {
    if m == [] then [] else (if m[0].1.Gone? then [m[0].0] else []) + Dropped(m[1..])
  }

  function DeltaOf(upper: nat, floor: nat, rows: seq<Row>): Delta {
    var c := Reduce(rows);
    Delta(upper, floor, Kept(c.nodes), Dropped(c.nodes), Kept(c.edges), Dropped(c.edges), Values(c.metas))
  }

  /** The two lists a change map is split into. */
  method Split<V>(m: Ordered<Change<V>>) returns (kept: seq<V>, dropped: seq<string>)
    ensures kept == Kept(m) && dropped == Dropped(m)
  {
    kept, dropped := [], [];
    var i := 0;
    while i < |m|
      invariant 0 <= i <= |m|
      invariant kept + Kept(m[i..]) == Kept(m) && dropped + Dropped(m[i..]) == Dropped(m)
    {
      var (id, change) := m[i];
      assert m[i..][1..] == m[i+1..];
      if change.Gone? {
        dropped := dropped + [id];
      } else {
        kept := kept + [change.value];
      }
      i := i + 1;
    }
  }

  method BuildDelta(upper: nat, floor: nat, rows: seq<Row>) returns (delta: Delta)
    ensures delta == DeltaOf(upper, floor, rows)
  {
    var nodes: Ordered<Change<Node>>, edges: Ordered<Change<Edge>>, metas: Ordered<Meta> := [], [], [];
    var i := 0;
    while i < |rows|
      invariant 0 <= i <= |rows|
      invariant Changes(nodes, edges, metas) == Reduce(rows[..i])
    {
      assert rows[..i+1][..i] == rows[..i];
      match rows[i] {
        case NodeDelete(id) => nodes := Put(nodes, id, Gone);
        case NodeUpsert(id, node) => if node.Some? { nodes := Put(nodes, id, Now(node.value)); }
        case EdgeDelete(id) => edges := Put(edges, id, Gone);
        case EdgeUpsert(id, edge) => if edge.Some? { edges := Put(edges, id, Now(edge.value)); }
        case MetaUpsert(id, meta) => if meta.Some? { metas := Put(metas, id, meta.value); }
        case MetaDelete(_) =>
      }
      i := i + 1;
    }
    assert rows[..i] == rows;
    var keptNodes, droppedNodes := Split(nodes);
    var keptEdges, droppedEdges := Split(edges);
    delta := Delta(upper, floor, keptNodes, droppedNodes, keptEdges, droppedEdges, Values(metas));
  }

  // ---------- The client ----------

  /** The client's canvas; `hydrated` holds the full copies it fetched of some nodes. */
  datatype Client = Client(nodes: map<string, Node>, edges: map<string, Edge>, canvas: Option<Meta>,
                           hydrated: map<string, Node>, revision: nat, floor: nat)

  function Merged(n: Node, hydrated: map<string, Node>): Node {
    if n.id in hydrated then n.(body := hydrated[n.id].body) else n
  }

  function SetOf(ids: seq<string>): set<string> { set id | id in ids }

  function WithNodes(nodes: map<string, Node>, upserts: seq<Node>, deleted: set<string>, hydrated: map<string, Node>):
    map<string, Node>
    decreases |upserts|
  {
    if upserts == [] then nodes
    else
      var n := upserts[0];
      WithNodes(if n.id in deleted then nodes else nodes[n.id := Merged(n, hydrated)], upserts[1..], deleted, hydrated)
  }

  function WithEdges(edges: map<string, Edge>, upserts: seq<Edge>, deleted: set<string>): map<string, Edge>
    decreases |upserts|
  {
    if upserts == [] then edges
    else
      var e := upserts[0];
      WithEdges(if e.id in deleted then edges else edges[e.id := e], upserts[1..], deleted)
  }

  function WithMeta(canvas: Option<Meta>, upserts: seq<Meta>): Option<Meta>
    decreases |upserts|
  {
    if upserts == [] then canvas
    else WithMeta(if canvas.Some? && canvas.value.id == upserts[0].id then Some(upserts[0]) else canvas, upserts[1..])
  }

  /** `applyCanvasDelta`: tombstones first, and they win over upserts. */
  function Apply(d: Delta, c: Client): Client {
    var goneNodes, goneEdges := SetOf(d.deleteNodes), SetOf(d.deleteEdges);
    var hydrated := c.hydrated - goneNodes;
    Client(WithNodes(c.nodes - goneNodes, d.upsertNodes, goneNodes, hydrated),
           WithEdges(c.edges - goneEdges, d.upsertEdges, goneEdges),
           WithMeta(c.canvas, d.upsertMeta), hydrated, d.upper, d.floor)
  }

  /** One row of the log, taken by itself. */
  function ApplyRow(row: Row, c: Client): Client {
    match row
    case NodeUpsert(_, node) =>
      if node.Some? then c.(nodes := c.nodes[node.value.id := Merged(node.value, c.hydrated)]) else c
    case NodeDelete(id) => c.(nodes := c.nodes - {id}, hydrated := c.hydrated - {id})
    case EdgeUpsert(_, edge) => if edge.Some? then c.(edges := c.edges[edge.value.id := edge.value]) else c
    case EdgeDelete(id) => c.(edges := c.edges - {id})
    case MetaUpsert(_, meta) =>
      if meta.Some? && c.canvas.Some? && c.canvas.value.id == meta.value.id then c.(canvas := meta) else c
    case MetaDelete(_) => c
  }

  /** The log row by row; the cursor is set by the envelope. */
  function Replay(rows: seq<Row>, upper: nat, floor: nat, c: Client): Client {
    if rows == [] then c.(revision := upper, floor := floor)
    else ApplyRow(rows[|rows|-1], Replay(rows[..|rows|-1], upper, floor, c))
  }

  // ---------- What the reduced changes say ----------

  /** The projection of a row names the row's entity. */
  predicate Named(rows: seq<Row>) {
    forall i :: 0 <= i < |rows| ==>
      match rows[i]
      case NodeUpsert(id, node) => node.Some? ==> node.value.id == id
      case EdgeUpsert(id, edge) => edge.Some? ==> edge.value.id == id
      case MetaUpsert(id, meta) => meta.Some? ==> meta.value.id == id
      case _ => true
  }

  /** Each map has every key once, and the values sit under their own ids. */
  predicate Tidy(c: Changes) {
    && Unique(c.nodes) && Unique(c.edges) && Unique(c.metas)
    && (forall k :: k in ToMap(c.nodes) && ToMap(c.nodes)[k].Now? ==> ToMap(c.nodes)[k].value.id == k)
    && (forall k :: k in ToMap(c.edges) && ToMap(c.edges)[k].Now? ==> ToMap(c.edges)[k].value.id == k)
    && (forall k :: k in ToMap(c.metas) ==> ToMap(c.metas)[k].id == k)
  }

  lemma AbsorbTidy(c: Changes, row: Row)
    requires Tidy(c) && Named([row])
    ensures Tidy(Absorb(c, row))
  {
    assert [row][0] == row;
    match row
    case NodeDelete(id) => PutIsUpdate(c.nodes, id, Gone);
    case NodeUpsert(id, node) => if node.Some? { PutIsUpdate(c.nodes, id, Now(node.value)); }
    case EdgeDelete(id) => PutIsUpdate(c.edges, id, Gone);
    case EdgeUpsert(id, edge) => if edge.Some? { PutIsUpdate(c.edges, id, Now(edge.value)); }
    case MetaUpsert(id, meta) => if meta.Some? { PutIsUpdate(c.metas, id, meta.value); }
    case MetaDelete(_) =>
  }

  lemma {:induction false} ReduceTidy(rows: seq<Row>)
    requires Named(rows)
    ensures Tidy(Reduce(rows))
  {
    if rows != [] {
      ReduceTidy(rows[..|rows|-1]);
      AbsorbTidy(Reduce(rows[..|rows|-1]), rows[|rows|-1]);
    }
  }

  lemma {:induction false} DroppedAre<V>(m: Ordered<Change<V>>)
    requires Unique(m)
    ensures forall k :: k in Dropped(m) <==> k in ToMap(m) && ToMap(m)[k].Gone?
  {
    if m != [] {
      DroppedAre(m[1..]);
    }
  }

  /** The nodes whose final operation is an upsert, merged with their full copies. */
  function Placed(n: map<string, Change<Node>>, hydrated: map<string, Node>): map<string, Node> {
    map k | k in n && n[k].Now? :: Merged(n[k].value, hydrated)
  }

  function PlacedEdges(e: map<string, Change<Edge>>): map<string, Edge> {
    map k | k in e && e[k].Now? :: e[k].value
  }

  lemma PlacedStep(nodes: map<string, Node>, rest: map<string, Change<Node>>, k: string, change: Change<Node>,
    hydrated: map<string, Node>)
    requires k !in rest
    ensures change.Now? ==> nodes[k := Merged(change.value, hydrated)] + Placed(rest, hydrated) ==
                            nodes + Placed(rest[k := change], hydrated)
    ensures change.Gone? ==> Placed(rest, hydrated) == Placed(rest[k := change], hydrated)
  {
  }

  lemma PlacedEdgesStep(edges: map<string, Edge>, rest: map<string, Change<Edge>>, k: string, change: Change<Edge>)
    requires k !in rest
    ensures change.Now? ==> edges[k := change.value] + PlacedEdges(rest) == edges + PlacedEdges(rest[k := change])
    ensures change.Gone? ==> PlacedEdges(rest) == PlacedEdges(rest[k := change])
  {
  }

  lemma {:induction false} NodesSet(nodes: map<string, Node>, m: Ordered<Change<Node>>, gone: set<string>,
    hydrated: map<string, Node>)
    requires Unique(m) && gone !! NowKeys(m)
    requires forall k :: k in ToMap(m) && ToMap(m)[k].Now? ==> ToMap(m)[k].value.id == k
    ensures WithNodes(nodes, Kept(m), gone, hydrated) == nodes + Placed(ToMap(m), hydrated)
    decreases |m|
  {
    if m != [] {
      var (k, change) := m[0];
      var rest := ToMap(m[1..]);
      PlacedStep(nodes, rest, k, change, hydrated);
      HeadAndRest(m);
      if change.Now? {
        assert k in NowKeys(m);
        NodesSet(nodes[k := Merged(change.value, hydrated)], m[1..], gone, hydrated);
        assert Kept(m)[1..] == Kept(m[1..]);
      } else {
        NodesSet(nodes, m[1..], gone, hydrated);
        assert Kept(m) == Kept(m[1..]);
      }
    }
  }

  function NowKeys<V>(m: Ordered<Change<V>>): set<string> {
    set k | k in ToMap(m) && ToMap(m)[k].Now?
  }

  lemma HeadAndRest<V>(m: Ordered<Change<V>>)
    requires m != [] && Unique(m)
    ensures var (k, change) := m[0];
            var rest := ToMap(m[1..]);
            && k !in rest && ToMap(m) == rest[k := change] && Unique(m[1..])
            && (forall j :: j in rest ==> j != k && ToMap(m)[j] == rest[j])
            && NowKeys(m[1..]) <= NowKeys(m)
  {
  }

  lemma {:induction false} EdgesSet(edges: map<string, Edge>, m: Ordered<Change<Edge>>, gone: set<string>)
    requires Unique(m) && gone !! NowKeys(m)
    requires forall k :: k in ToMap(m) && ToMap(m)[k].Now? ==> ToMap(m)[k].value.id == k
    ensures WithEdges(edges, Kept(m), gone) == edges + PlacedEdges(ToMap(m))
    decreases |m|
  {
    if m != [] {
      var (k, change) := m[0];
      var rest := ToMap(m[1..]);
      PlacedEdgesStep(edges, rest, k, change);
      HeadAndRest(m);
      if change.Now? {
        assert k in NowKeys(m);
        EdgesSet(edges[k := change.value], m[1..], gone);
        assert Kept(m)[1..] == Kept(m[1..]);
      } else {
        EdgesSet(edges, m[1..], gone);
        assert Kept(m) == Kept(m[1..]);
      }
    }
  }

  lemma {:induction false} MetaSet(canvas: Option<Meta>, m: Ordered<Meta>)
    requires Unique(m) && forall k :: k in ToMap(m) ==> ToMap(m)[k].id == k
    ensures WithMeta(canvas, Values(m)) ==
            if canvas.Some? && canvas.value.id in ToMap(m) then Some(ToMap(m)[canvas.value.id]) else canvas
    decreases |m|
  {
    if m != [] {
      var (k, meta) := m[0];
      var t := ToMap(m);
      assert forall j :: j in ToMap(m[1..]) ==> j != k && j in t && t[j] == ToMap(m[1..])[j];
      assert k in t && t[k] == meta;
      var next := if canvas.Some? && canvas.value.id == meta.id then Some(meta) else canvas;
      MetaSet(next, m[1..]);
      assert Values(m)[1..] == Values(m[1..]);
    }
  }

  // ---------- What a client holds afterwards, by final operation ----------

  /** The client after changes `c`, each entity by its final operation, merged with these full copies. */
  function Outcome(c: Changes, upper: nat, floor: nat, before: Client, hydrated: map<string, Node>): Client {
    var n, e, m := ToMap(c.nodes), ToMap(c.edges), ToMap(c.metas);
    Client(NodesAfter(before.nodes, n, hydrated), EdgesAfter(before.edges, e),
           if before.canvas.Some? && before.canvas.value.id in m then Some(m[before.canvas.value.id])
           else before.canvas,
           hydrated, upper, floor)
  }

  function NodesAfter(before: map<string, Node>, n: map<string, Change<Node>>,
    hydrated: map<string, Node>): map<string, Node> {
    (before - Gones(n)) + Placed(n, hydrated)
  }

  function EdgesAfter(before: map<string, Edge>, e: map<string, Change<Edge>>): map<string, Edge> {
    (before - Gones(e)) + PlacedEdges(e)
  }

  function Gones<V>(m: map<string, Change<V>>): set<string> {
    set k | k in m && m[k].Gone?
  }

  lemma ApplyIsOutcome(upper: nat, floor: nat, rows: seq<Row>, c: Client)
    requires Named(rows)
    ensures Apply(DeltaOf(upper, floor, rows), c) ==
            Outcome(Reduce(rows), upper, floor, c, c.hydrated - Gones(ToMap(Reduce(rows).nodes)))
  {
    ReduceTidy(rows);
    var r := Reduce(rows);
    DroppedAre(r.nodes);
    DroppedAre(r.edges);
    var goneNodes, goneEdges := SetOf(Dropped(r.nodes)), SetOf(Dropped(r.edges));
    assert goneNodes == Gones(ToMap(r.nodes)) && goneEdges == Gones(ToMap(r.edges));
    NodesSet(c.nodes - goneNodes, r.nodes, goneNodes, c.hydrated - goneNodes);
    EdgesSet(c.edges - goneEdges, r.edges, goneEdges);
    MetaSet(c.canvas, r.metas);
  }

  /** The nodes some row deletes, whatever follows. */
  function DeletedIn(rows: seq<Row>): set<string> {
    if rows == [] then {}
    else
      var last := rows[|rows|-1];
      DeletedIn(rows[..|rows|-1]) + (if last.NodeDelete? then {last.id} else {})
  }

  lemma {:induction false} DeletedAreChanged(rows: seq<Row>)
    requires Named(rows)
    ensures DeletedIn(rows) <= ToMap(Reduce(rows).nodes).Keys
    ensures Gones(ToMap(Reduce(rows).nodes)) <= DeletedIn(rows)
  {
    if rows != [] {
      var init, row := rows[..|rows|-1], rows[|rows|-1];
      DeletedAreChanged(init);
      ReduceTidy(init);
      var r := Reduce(init);
      if row.NodeDelete? {
        PutIsUpdate(r.nodes, row.id, Gone);
      } else if row.NodeUpsert? && row.node.Some? {
        PutIsUpdate(r.nodes, row.id, Now(row.node.value));
      }
    }
  }

  lemma NodesAfterDelete(before: map<string, Node>, n: map<string, Change<Node>>, hydrated: map<string, Node>,
    id: string)
    requires forall k :: k in n && n[k].Now? ==> n[k].value.id == k
    ensures NodesAfter(before, n[id := Gone], hydrated - {id}) == NodesAfter(before, n, hydrated) - {id}
  {
    var n' := n[id := Gone];
    assert forall k :: k in n && k != id && n[k].Now? ==>
      Merged(n[k].value, hydrated - {id}) == Merged(n[k].value, hydrated);
    assert Placed(n', hydrated - {id}) == Placed(n, hydrated) - {id};
    assert Gones(n') == Gones(n) + {id};
  }

  lemma NodesAfterUpsert(before: map<string, Node>, n: map<string, Change<Node>>, hydrated: map<string, Node>, v: Node)
    ensures NodesAfter(before, n[v.id := Now(v)], hydrated) ==
        NodesAfter(before, n, hydrated)[v.id := Merged(v, hydrated)]
  {
    var n' := n[v.id := Now(v)];
    assert Placed(n', hydrated) == Placed(n, hydrated)[v.id := Merged(v, hydrated)];
    assert Gones(n') == Gones(n) - {v.id};
  }

  lemma EdgesAfterDelete(before: map<string, Edge>, e: map<string, Change<Edge>>, id: string)
    ensures EdgesAfter(before, e[id := Gone]) == EdgesAfter(before, e) - {id}
  {
    assert PlacedEdges(e[id := Gone]) == PlacedEdges(e) - {id};
    assert Gones(e[id := Gone]) == Gones(e) + {id};
  }

  lemma EdgesAfterUpsert(before: map<string, Edge>, e: map<string, Change<Edge>>, v: Edge)
    ensures EdgesAfter(before, e[v.id := Now(v)]) == EdgesAfter(before, e)[v.id := v]
  {
    assert PlacedEdges(e[v.id := Now(v)]) == PlacedEdges(e)[v.id := v];
    assert Gones(e[v.id := Now(v)]) == Gones(e) - {v.id};
  }

  /** One more row changes the outcome as the row itself would. */
  lemma RowOnOutcome(r: Changes, row: Row, upper: nat, floor: nat, c: Client, hydrated: map<string, Node>)
    requires Tidy(r) && Named([row])
    ensures ApplyRow(row, Outcome(r, upper, floor, c, hydrated)) ==
            Outcome(Absorb(r, row), upper, floor, c, if row.NodeDelete? then hydrated - {row.id} else hydrated)
  {
    assert [row][0] == row;
    if row.NodeDelete? {
      PutIsUpdate(r.nodes, row.id, Gone);
      NodesAfterDelete(c.nodes, ToMap(r.nodes), hydrated, row.id);
    } else if row.NodeUpsert? && row.node.Some? {
      PutIsUpdate(r.nodes, row.id, Now(row.node.value));
      NodesAfterUpsert(c.nodes, ToMap(r.nodes), hydrated, row.node.value);
    } else if row.EdgeDelete? {
      PutIsUpdate(r.edges, row.id, Gone);
      EdgesAfterDelete(c.edges, ToMap(r.edges), row.id);
    } else if row.EdgeUpsert? && row.edge.Some? {
      PutIsUpdate(r.edges, row.id, Now(row.edge.value));
      EdgesAfterUpsert(c.edges, ToMap(r.edges), row.edge.value);
    } else if row.MetaUpsert? && row.meta.Some? {
      PutIsUpdate(r.metas, row.id, row.meta.value);
    }
  }

  /** Replaying loses the full copy of every node that was deleted on the way. */
  lemma {:induction false} ReplayIsOutcome(rows: seq<Row>, upper: nat, floor: nat, c: Client)
    requires Named(rows)
    ensures Replay(rows, upper, floor, c) == Outcome(Reduce(rows), upper, floor, c, c.hydrated - DeletedIn(rows))
  {
    if rows == [] {
      assert c.hydrated - {} == c.hydrated;
      assert NodesAfter(c.nodes, map[], c.hydrated) == c.nodes;
      assert EdgesAfter(c.edges, map[]) == c.edges;
    } else {
      var init, row := rows[..|rows|-1], rows[|rows|-1];
      ReplayIsOutcome(init, upper, floor, c);
      ReduceTidy(init);
      RowOnOutcome(Reduce(init), row, upper, floor, c, c.hydrated - DeletedIn(init));
      DroppingAll(c.hydrated, init, row);
      assert rows == init + [row];
    }
  }

  lemma DroppingAll(hydrated: map<string, Node>, init: seq<Row>, row: Row)
    ensures var rest := hydrated - DeletedIn(init);
            (if row.NodeDelete? then rest - {row.id} else rest) == hydrated - DeletedIn(init + [row])
  {
    assert (init + [row])[..|init|] == init;
  }

  // ---------- Main results ----------

  /** No node the client has a full copy of is deleted and then comes back within the rows. */
  predicate NoHydratedReturn(rows: seq<Row>, hydrated: set<string>) {
    forall k :: k in hydrated && k in DeletedIn(rows) ==>
      k in ToMap(Reduce(rows).nodes) && ToMap(Reduce(rows).nodes)[k].Gone?
  }

  /** Applying the compacted delta leaves the client exactly as replaying the rows one by one would, if and
      only if no node it holds a full copy of was deleted and came back in between: compaction forgets that
      deletion, and the stale copy survives. */
  lemma CompactionIsReplayIff(rows: seq<Row>, upper: nat, floor: nat, c: Client)
    requires Named(rows)
    ensures Apply(DeltaOf(upper, floor, rows), c) == Replay(rows, upper, floor, c) <==>
            NoHydratedReturn(rows, c.hydrated.Keys)
  {
    ApplyIsOutcome(upper, floor, rows, c);
    ReplayIsOutcome(rows, upper, floor, c);
    DeletedAreChanged(rows);
    var gone, deleted := Gones(ToMap(Reduce(rows).nodes)), DeletedIn(rows);
    if NoHydratedReturn(rows, c.hydrated.Keys) {
      assert c.hydrated - gone == c.hydrated - deleted;
    } else {
      var k :| k in c.hydrated.Keys && k in deleted && k !in gone;
      assert k in c.hydrated - gone && k !in c.hydrated - deleted;
    }
  }

  /** For a client that holds no full copies the two always agree. */
  lemma CompactionIsReplay(rows: seq<Row>, upper: nat, floor: nat, c: Client)
    requires Named(rows) && c.hydrated == map[]
    ensures Apply(DeltaOf(upper, floor, rows), c) == Replay(rows, upper, floor, c)
  {
    CompactionIsReplayIff(rows, upper, floor, c);
  }

  /** No id is both upserted and deleted, and no node or edge is upserted twice. */
  lemma UpsertsAndDeletesDisjoint(rows: seq<Row>, upper: nat, floor: nat)
    requires Named(rows)
    ensures var d := DeltaOf(upper, floor, rows);
            && (forall n :: n in d.upsertNodes ==> n.id !in d.deleteNodes)
            && (forall e :: e in d.upsertEdges ==> e.id !in d.deleteEdges)
            && (forall i, j :: 0 <= i < j < |d.upsertNodes| ==> d.upsertNodes[i].id != d.upsertNodes[j].id)
            && (forall i, j :: 0 <= i < j < |d.upsertEdges| ==> d.upsertEdges[i].id != d.upsertEdges[j].id)
  {
    ReduceTidy(rows);
    var r := Reduce(rows);
    DroppedAre(r.nodes);
    DroppedAre(r.edges);
    KeptAre(r.nodes, (n: Node) => n.id);
    KeptAre(r.edges, (e: Edge) => e.id);
  }

  lemma {:induction false} KeptAre<V>(m: Ordered<Change<V>>, id: V -> string)
    requires Unique(m) && forall k :: k in ToMap(m) && ToMap(m)[k].Now? ==> id(ToMap(m)[k].value) == k
    ensures forall v :: v in Kept(m) ==> id(v) in ToMap(m) && ToMap(m)[id(v)] == Now(v)
    ensures forall i, j :: 0 <= i < j < |Kept(m)| ==> id(Kept(m)[i]) != id(Kept(m)[j])
  {
    if m != [] {
      var (k, change) := m[0];
      assert forall j :: j in ToMap(m[1..]) ==> j != k && j in ToMap(m) && ToMap(m)[j] == ToMap(m[1..])[j];
      assert k in ToMap(m) && ToMap(m)[k] == change;
      KeptAre(m[1..], id);
    }
  }

  lemma {:induction false} ReduceConcat(a: seq<Row>, b: seq<Row>)
    requires Named(a) && Named(b)
    ensures ToMap(Reduce(a + b).nodes) == ToMap(Reduce(a).nodes) + ToMap(Reduce(b).nodes)
    ensures ToMap(Reduce(a + b).edges) == ToMap(Reduce(a).edges) + ToMap(Reduce(b).edges)
    ensures ToMap(Reduce(a + b).metas) == ToMap(Reduce(a).metas) + ToMap(Reduce(b).metas)
  {
    if b == [] {
      assert a + b == a;
    } else {
      var init, row := b[..|b|-1], b[|b|-1];
      assert (a + b)[..|a + b|-1] == a + init;
      ReduceConcat(a, init);
      NamedConcat(a, init);
      var r, t := Reduce(a), Reduce(init);
      AbsorbNodes(Reduce(a + init), row);
      AbsorbNodes(t, row);
      AbsorbEdges(Reduce(a + init), row);
      AbsorbEdges(t, row);
      AbsorbMetas(Reduce(a + init), row);
      AbsorbMetas(t, row);
      Associates(ToMap(r.nodes), ToMap(t.nodes), NodeChange(row));
      Associates(ToMap(r.edges), ToMap(t.edges), EdgeChange(row));
      Associates(ToMap(r.metas), ToMap(t.metas), MetaChange(row));
    }
  }

  lemma Associates<V>(a: map<string, V>, b: map<string, V>, c: map<string, V>)
    ensures a + (b + c) == (a + b) + c
  {
  }

  lemma NamedConcat(a: seq<Row>, b: seq<Row>)
    requires Named(a) && Named(b)
    ensures Named(a + b) && Tidy(Reduce(a + b)) && Tidy(Reduce(b))
  {
    ReduceTidy(a + b);
    ReduceTidy(b);
  }

  /** What a row puts into the maps, whatever they hold. */
  function NodeChange(row: Row): map<string, Change<Node>> {
    match row
    case NodeDelete(id) => map[id := Gone]
    case NodeUpsert(id, node) => if node.Some? then map[id := Now(node.value)] else map[]
    case _ => map[]
  }

  function EdgeChange(row: Row): map<string, Change<Edge>> {
    match row
    case EdgeDelete(id) => map[id := Gone]
    case EdgeUpsert(id, edge) => if edge.Some? then map[id := Now(edge.value)] else map[]
    case _ => map[]
  }

  function MetaChange(row: Row): map<string, Meta> {
    match row
    case MetaUpsert(id, meta) => if meta.Some? then map[id := meta.value] else map[]
    case _ => map[]
  }

  lemma PutAdds<V>(m: Ordered<V>, k: string, v: V)
    requires Unique(m)
    ensures ToMap(Put(m, k, v)) == ToMap(m) + map[k := v]
  {
    PutIsUpdate(m, k, v);
  }

  lemma AbsorbNodes(c: Changes, row: Row)
    requires Tidy(c)
    ensures ToMap(Absorb(c, row).nodes) == ToMap(c.nodes) + NodeChange(row)
  {
    if row.NodeDelete? { PutAdds(c.nodes, row.id, Gone); }
    if row.NodeUpsert? && row.node.Some? { PutAdds(c.nodes, row.id, Now(row.node.value)); }
  }

  lemma AbsorbEdges(c: Changes, row: Row)
    requires Tidy(c)
    ensures ToMap(Absorb(c, row).edges) == ToMap(c.edges) + EdgeChange(row)
  {
    if row.EdgeDelete? { PutAdds(c.edges, row.id, Gone); }
    if row.EdgeUpsert? && row.edge.Some? { PutAdds(c.edges, row.id, Now(row.edge.value)); }
  }

  lemma AbsorbMetas(c: Changes, row: Row)
    requires Tidy(c)
    ensures ToMap(Absorb(c, row).metas) == ToMap(c.metas) + MetaChange(row)
  {
    if row.MetaUpsert? && row.meta.Some? { PutAdds(c.metas, row.id, row.meta.value); }
  }

  /** The nodes whose final operation is a deletion. */
  function FinallyGone(rows: seq<Row>): set<string> { Gones(ToMap(Reduce(rows).nodes)) }

  /** Each full copy the first range takes from the client stays taken over both ranges. */
  predicate NoReturnBetween(a: seq<Row>, b: seq<Row>, hydrated: set<string>) {
    forall k :: k in hydrated && k in FinallyGone(a) ==> k in FinallyGone(a + b)
  }

  lemma HydratedCompose(a: seq<Row>, b: seq<Row>, hydrated: map<string, Node>)
    requires Named(a) && Named(b)
    ensures hydrated - FinallyGone(a + b) == hydrated - FinallyGone(a) - FinallyGone(b) <==>
            NoReturnBetween(a, b, hydrated.Keys)
  {
    ReduceConcat(a, b);
    var once, twice := hydrated - FinallyGone(a + b), hydrated - FinallyGone(a) - FinallyGone(b);
    assert FinallyGone(b) <= FinallyGone(a + b) <= FinallyGone(a) + FinallyGone(b);
    if NoReturnBetween(a, b, hydrated.Keys) {
      assert once.Keys == twice.Keys;
    } else {
      var k :| k in hydrated && k in FinallyGone(a) && k !in FinallyGone(a + b);
      assert k in once && k !in twice;
    }
  }

  lemma NodesCompose(before: map<string, Node>, m: map<string, Change<Node>>, n: map<string, Change<Node>>,
                     hydrated: map<string, Node>, left: map<string, Node>)
    requires forall k :: k in m && m[k].Now? ==> m[k].value.id == k
    requires left == hydrated - Gones(n)
    ensures NodesAfter(NodesAfter(before, m, hydrated), n, left) == NodesAfter(before, m + n, left)
  {
    var once, twice := NodesAfter(before, m + n, left), NodesAfter(NodesAfter(before, m, hydrated), n, left);
    forall k
      ensures k in once <==> k in twice
      ensures k in once ==> once[k] == twice[k]
    {
      if k in m && k !in n && m[k].Now? {
        assert k in hydrated <==> k in left;
        assert Merged(m[k].value, hydrated) == Merged(m[k].value, left);
      }
    }
  }

  lemma EdgesCompose(before: map<string, Edge>, m: map<string, Change<Edge>>, n: map<string, Change<Edge>>)
    ensures EdgesAfter(EdgesAfter(before, m), n) == EdgesAfter(before, m + n)
  {
    var once, twice := EdgesAfter(before, m + n), EdgesAfter(EdgesAfter(before, m), n);
    assert forall k :: k in once <==> k in twice;
    assert forall k :: k in once ==> once[k] == twice[k];
  }

  /** A client that catches up in two requests ends where one request over both ranges takes it, if and only
      if none of its full copies is of a node that the first range leaves deleted and the second brings back:
      the single request forgets that deletion. */
  lemma DeltasComposeIff(a: seq<Row>, b: seq<Row>, upperA: nat, upper: nat, floorA: nat, floor: nat, c: Client)
    requires Named(a) && Named(b)
    ensures Apply(DeltaOf(upper, floor, a + b), c) ==
            Apply(DeltaOf(upper, floor, b), Apply(DeltaOf(upperA, floorA, a), c)) <==>
            NoReturnBetween(a, b, c.hydrated.Keys)
  {
    NamedConcat(a, b);
    ReduceTidy(a);
    ReduceConcat(a, b);
    var mid := Apply(DeltaOf(upperA, floorA, a), c);
    ApplyIsOutcome(upperA, floorA, a, c);
    ApplyIsOutcome(upper, floor, b, mid);
    ApplyIsOutcome(upper, floor, a + b, c);
    HydratedCompose(a, b, c.hydrated);
    var left := mid.hydrated - FinallyGone(b);
    NodesCompose(c.nodes, ToMap(Reduce(a).nodes), ToMap(Reduce(b).nodes), mid.hydrated, left);
    EdgesCompose(c.edges, ToMap(Reduce(a).edges), ToMap(Reduce(b).edges));
  }

  /** Delivering the same delta twice changes nothing more. */
  lemma ApplyTwice(rows: seq<Row>, upper: nat, floor: nat, c: Client)
    requires Named(rows)
    ensures var d := DeltaOf(upper, floor, rows); Apply(d, Apply(d, c)) == Apply(d, c)
  {
    ReduceTidy(rows);
    var once := Apply(DeltaOf(upper, floor, rows), c);
    ApplyIsOutcome(upper, floor, rows, c);
    ApplyIsOutcome(upper, floor, rows, once);
    var n, e := ToMap(Reduce(rows).nodes), ToMap(Reduce(rows).edges);
    var hydrated := c.hydrated - Gones(n);
    assert once.hydrated - Gones(n) == hydrated;
    NodesAfterTwice(c.nodes, n, hydrated);
    EdgesAfterTwice(c.edges, e);
  }

  lemma NodesAfterTwice(before: map<string, Node>, n: map<string, Change<Node>>, hydrated: map<string, Node>)
    ensures NodesAfter(NodesAfter(before, n, hydrated), n, hydrated) == NodesAfter(before, n, hydrated)
  {
  }

  lemma EdgesAfterTwice(before: map<string, Edge>, e: map<string, Change<Edge>>)
    ensures EdgesAfter(EdgesAfter(before, e), e) == EdgesAfter(before, e)
  {
  }

  // ---------- In the words of the log ----------

  /** The row says what becomes of the node: a deletion, or an upsert that can be projected. */
  predicate SpeaksOfNode(row: Row, id: string) {
    (row == NodeDelete(id)) || (row.NodeUpsert? && row.id == id && row.node.Some?)
  }

  predicate SpeaksOfEdge(row: Row, id: string) {
    (row == EdgeDelete(id)) || (row.EdgeUpsert? && row.id == id && row.edge.Some?)
  }

  /** Row `i` is the last one to speak of the node. */
  predicate LastOfNode(rows: seq<Row>, i: nat, id: string) {
    i < |rows| && SpeaksOfNode(rows[i], id) && forall j :: i < j < |rows| ==> !SpeaksOfNode(rows[j], id)
  }

  predicate LastOfEdge(rows: seq<Row>, i: nat, id: string) {
    i < |rows| && SpeaksOfEdge(rows[i], id) && forall j :: i < j < |rows| ==> !SpeaksOfEdge(rows[j], id)
  }

  lemma AbsorbSpeaksNode(c: Changes, row: Row, id: string)
    requires Tidy(c) && Named([row])
    ensures var m, n := ToMap(c.nodes), ToMap(Absorb(c, row).nodes);
            if SpeaksOfNode(row, id) then
              id in n && n[id] == if row.NodeDelete? then Gone else Now(row.node.value)
            else (id in n <==> id in m) && (id in m ==> n[id] == m[id])
  {
    assert [row][0] == row;
    if row.NodeDelete? { PutIsUpdate(c.nodes, row.id, Gone); }
    if row.NodeUpsert? && row.node.Some? { PutIsUpdate(c.nodes, row.id, Now(row.node.value)); }
  }

  lemma {:induction false} ReducedNode(rows: seq<Row>, id: string, i: nat)
    requires Named(rows) && LastOfNode(rows, i, id)
    ensures var m := ToMap(Reduce(rows).nodes);
            id in m && m[id] == if rows[i].NodeDelete? then Gone else Now(rows[i].node.value)
  {
    var init, row := rows[..|rows|-1], rows[|rows|-1];
    ReduceTidy(init);
    AbsorbSpeaksNode(Reduce(init), row, id);
    if i < |init| {
      assert init[i] == rows[i] && forall j :: i < j < |init| ==> init[j] == rows[j];
      ReducedNode(init, id, i);
    }
  }

  lemma {:induction false} UnspokenNode(rows: seq<Row>, id: string)
    requires Named(rows) && forall i :: 0 <= i < |rows| ==> !SpeaksOfNode(rows[i], id)
    ensures id !in ToMap(Reduce(rows).nodes)
  {
    if rows != [] {
      var init, row := rows[..|rows|-1], rows[|rows|-1];
      UnspokenNode(init, id);
      ReduceTidy(init);
      AbsorbSpeaksNode(Reduce(init), row, id);
    }
  }

  lemma AbsorbSpeaksEdge(c: Changes, row: Row, id: string)
    requires Tidy(c) && Named([row])
    ensures var m, n := ToMap(c.edges), ToMap(Absorb(c, row).edges);
            if SpeaksOfEdge(row, id) then
              id in n && n[id] == if row.EdgeDelete? then Gone else Now(row.edge.value)
            else (id in n <==> id in m) && (id in m ==> n[id] == m[id])
  {
    assert [row][0] == row;
    if row.EdgeDelete? { PutIsUpdate(c.edges, row.id, Gone); }
    if row.EdgeUpsert? && row.edge.Some? { PutIsUpdate(c.edges, row.id, Now(row.edge.value)); }
  }

  lemma {:induction false} ReducedEdge(rows: seq<Row>, id: string, i: nat)
    requires Named(rows) && LastOfEdge(rows, i, id)
    ensures var m := ToMap(Reduce(rows).edges);
            id in m && m[id] == if rows[i].EdgeDelete? then Gone else Now(rows[i].edge.value)
  {
    var init, row := rows[..|rows|-1], rows[|rows|-1];
    ReduceTidy(init);
    AbsorbSpeaksEdge(Reduce(init), row, id);
    if i < |init| {
      assert init[i] == rows[i] && forall j :: i < j < |init| ==> init[j] == rows[j];
      ReducedEdge(init, id, i);
    }
  }

  lemma {:induction false} UnspokenEdge(rows: seq<Row>, id: string)
    requires Named(rows) && forall i :: 0 <= i < |rows| ==> !SpeaksOfEdge(rows[i], id)
    ensures id !in ToMap(Reduce(rows).edges)
  {
    if rows != [] {
      var init, row := rows[..|rows|-1], rows[|rows|-1];
      UnspokenEdge(init, id);
      ReduceTidy(init);
      AbsorbSpeaksEdge(Reduce(init), row, id);
    }
  }

  /**
   * A client that applies the delta of some rows holds each node as the last row to speak of it says: gone, its
   * full copy too, or with the summary of that row and the body of the full copy, if it keeps one.  Nodes no
   * row speaks of stay as they were.
   */
  lemma ClientHoldsLastNode(rows: seq<Row>, upper: nat, floor: nat, c: Client, id: string)
    requires Named(rows)
    ensures var after := Apply(DeltaOf(upper, floor, rows), c);
            && (forall i: nat :: LastOfNode(rows, i, id) && rows[i].NodeDelete? ==>
                  id !in after.nodes && id !in after.hydrated)
            && (forall i: nat :: LastOfNode(rows, i, id) && rows[i].NodeUpsert? ==>
                  && id in after.nodes && after.nodes[id].id == id
                  && after.nodes[id].shape == rows[i].node.value.shape
                  && (id in c.hydrated <==> id in after.hydrated)
                  && (id in c.hydrated ==> after.hydrated[id] == c.hydrated[id])
                  && after.nodes[id].body == if id in c.hydrated then c.hydrated[id].body else rows[i].node.value.body)
            && ((forall i :: 0 <= i < |rows| ==> !SpeaksOfNode(rows[i], id)) ==>
                  && (id in c.nodes <==> id in after.nodes) && (id in c.nodes ==> after.nodes[id] == c.nodes[id])
                  && (id in c.hydrated <==> id in after.hydrated)
                  && (id in c.hydrated ==> after.hydrated[id] == c.hydrated[id]))
  {
    ApplyIsOutcome(upper, floor, rows, c);
    ReduceTidy(rows);
    forall i: nat | LastOfNode(rows, i, id) { ReducedNode(rows, id, i); }
    if forall i :: 0 <= i < |rows| ==> !SpeaksOfNode(rows[i], id) { UnspokenNode(rows, id); }
  }

  lemma ClientHoldsLastEdge(rows: seq<Row>, upper: nat, floor: nat, c: Client, id: string)
    requires Named(rows)
    ensures var after := Apply(DeltaOf(upper, floor, rows), c);
            && (forall i: nat :: LastOfEdge(rows, i, id) && rows[i].EdgeDelete? ==> id !in after.edges)
            && (forall i: nat :: LastOfEdge(rows, i, id) && rows[i].EdgeUpsert? ==>
                  id in after.edges && after.edges[id] == rows[i].edge.value)
            && ((forall i :: 0 <= i < |rows| ==> !SpeaksOfEdge(rows[i], id)) ==>
                  (id in c.edges <==> id in after.edges) && (id in c.edges ==> after.edges[id] == c.edges[id]))
  {
    ApplyIsOutcome(upper, floor, rows, c);
    ReduceTidy(rows);
    forall i: nat | LastOfEdge(rows, i, id) { ReducedEdge(rows, id, i); }
    if forall i :: 0 <= i < |rows| ==> !SpeaksOfEdge(rows[i], id) { UnspokenEdge(rows, id); }
  }

  lemma {:induction false} SkipsDeleted(nodes: map<string, Node>, upserts: seq<Node>, deleted: set<string>,
    hydrated: map<string, Node>)
    requires nodes.Keys !! deleted
    ensures WithNodes(nodes, upserts, deleted, hydrated).Keys !! deleted
    decreases |upserts|
  {
    if upserts != [] {
      var n := upserts[0];
      var next := if n.id in deleted then nodes else nodes[n.id := Merged(n, hydrated)];
      SkipsDeleted(next, upserts[1..], deleted, hydrated);
    }
  }

  lemma {:induction false} SkipsDeletedEdges(edges: map<string, Edge>, upserts: seq<Edge>, deleted: set<string>)
    requires edges.Keys !! deleted
    ensures WithEdges(edges, upserts, deleted).Keys !! deleted
    decreases |upserts|
  {
    if upserts != [] {
      var e := upserts[0];
      SkipsDeletedEdges(if e.id in deleted then edges else edges[e.id := e], upserts[1..], deleted);
    }
  }

  /** Of any delta, one that names an entity twice included, the tombstones win. */
  lemma TombstonesWin(d: Delta, c: Client)
    ensures forall id :: id in d.deleteNodes ==> id !in Apply(d, c).nodes && id !in Apply(d, c).hydrated
    ensures forall id :: id in d.deleteEdges ==> id !in Apply(d, c).edges
  {
    var goneNodes, goneEdges := SetOf(d.deleteNodes), SetOf(d.deleteEdges);
    SkipsDeleted(c.nodes - goneNodes, d.upsertNodes, goneNodes, c.hydrated - goneNodes);
    SkipsDeletedEdges(c.edges - goneEdges, d.upsertEdges, goneEdges);
    assert forall id :: id in d.deleteNodes ==> id in goneNodes;
    assert forall id :: id in d.deleteEdges ==> id in goneEdges;
  }
}
