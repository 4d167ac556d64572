/** web/src/graphState.ts: the browser's graph, built from a snapshot and kept up to date by patches. */
module GraphState {
  import opened Prelude
  import opened GraphModel
  import opened GraphDiff
  import opened Sorting

  datatype State = State(nodes: map<string, Node>, edges: seq<Edge>)

  const EmptyState := State(map[], [])

  function EdgeKey(e: Edge): string {
    e.src + "|" + e.dst + "|" + e.typ
  }

  /** Neither endpoint contains the separator of the key. */
  predicate Plain(e: Edge) {
    '|' !in e.src && '|' !in e.dst
  }

  /** Over separator-free endpoints the key identifies the edge. */
  lemma EdgeKeyIsFaithful(e: Edge, f: Edge)
    requires Plain(e) && Plain(f) && EdgeKey(e) == EdgeKey(f)
    ensures e == f
  {
    var p, q := e.dst + "|" + e.typ, f.dst + "|" + f.typ;
    assert EdgeKey(e) == e.src + "|" + p && EdgeKey(f) == f.src + "|" + q;
    SplitAtSeparator(e.src, f.src, '|', p, q);
    SplitAtSeparator(e.dst, f.dst, '|', e.typ, f.typ);
  }

  /** With a separator inside an id, two edges can share a key. */
  lemma EdgeKeyCollides()
    ensures
      var e, f := Edge("a|b", "c", "owner"), Edge("a", "b|c", "owner");
      e != f && EdgeKey(e) == EdgeKey(f)
  {
    assert EdgeKey(Edge("a|b", "c", "owner")) == "a|b|c|owner";
    assert EdgeKey(Edge("a", "b|c", "owner")) == "a|b|c|owner";
  }

  function KeySet(edges: seq<Edge>): set<string> {
    set e | e in edges :: EdgeKey(e)
  }

  function Upserted(nodes: map<string, Node>, upserts: seq<Node>): map<string, Node> {
    if upserts == [] then nodes
    else Upserted(nodes, upserts[..|upserts| - 1])[upserts[|upserts| - 1].id := upserts[|upserts| - 1]]
  }

  function Kept(edges: seq<Edge>, removed: set<string>): (r: seq<Edge>)
    ensures forall e :: e in r <==> e in edges && EdgeKey(e) !in removed
  {
    if edges == [] then []
    else
      var e := edges[|edges| - 1];
      Kept(edges[..|edges| - 1], removed) + (if EdgeKey(e) in removed then [] else [e])
  }

  function Added(edges: seq<Edge>, more: seq<Edge>): seq<Edge> {
    if more == [] then edges
    else
      var r, e := Added(edges, more[..|more| - 1]), more[|more| - 1];
      if EdgeKey(e) in KeySet(r) then r else r + [e]
  }

  function SnapshotOf(g: Graph): State {
    State(ById(g.nodes), g.edges)
  }

  function Patched(s: State, p: Patch): State {
    State(Upserted(s.nodes, p.upsertNodes) - (set id | id in p.removeNodeIDs),
          Added(Kept(s.edges, KeySet(p.removeEdges)), p.upsertEdges))
  }

  method FromSnapshot(g: Graph) returns (s: State)
    ensures s == SnapshotOf(g)
  {
    var nodes := IndexById(g.nodes);
    s := State(nodes, g.edges);
  }

  method ApplyPatch(s: State, p: Patch) returns (r: State)
    ensures r == Patched(s, p)
  {
    var nodes := PatchNodes(s.nodes, p.upsertNodes, p.removeNodeIDs);
    var edges := PatchEdges(s.edges, p.upsertEdges, p.removeEdges);
    r := State(nodes, edges);
  }

  method PatchNodes(before: map<string, Node>, upserts: seq<Node>, removeIDs: seq<string>)
    returns (nodes: map<string, Node>)
    ensures nodes == Upserted(before, upserts) - (set id | id in removeIDs)
  {
    nodes := before;
    for i := 0 to |upserts|
      invariant nodes == Upserted(before, upserts[..i])
    {
      assert upserts[..i + 1][..i] == upserts[..i];
      nodes := nodes[upserts[i].id := upserts[i]];
    }
    assert upserts[..|upserts|] == upserts;
    ghost var upserted := nodes;
    for i := 0 to |removeIDs|
      invariant nodes == upserted - (set id | id in removeIDs[..i])
    {
      nodes := nodes - {removeIDs[i]};
    }
    assert removeIDs[..|removeIDs|] == removeIDs;
  }

  method PatchEdges(before: seq<Edge>, upserts: seq<Edge>, removes: seq<Edge>) returns (edges: seq<Edge>)
    ensures edges == Added(Kept(before, KeySet(removes)), upserts)
  {
    var removed := KeySet(removes);
    edges := Kept(before, removed);
    ghost var kept := edges;
    var present := KeySet(edges);
    for i := 0 to |upserts|
      invariant edges == Added(kept, upserts[..i])
      invariant present == KeySet(edges)
    {
      assert upserts[..i + 1][..i] == upserts[..i];
      var k := EdgeKey(upserts[i]);
      if k !in present {
        KeySetSnoc(edges, upserts[i]);
        edges := edges + [upserts[i]];
        present := present + {k};
      }
    }
    assert upserts[..|upserts|] == upserts;
  }

  lemma KeySetSnoc(edges: seq<Edge>, e: Edge)
    ensures KeySet(edges + [e]) == KeySet(edges) + {EdgeKey(e)}
  {
  }

  // ---- the browser's graph against the server's ----

  ghost predicate PlainEdges(edges: seq<Edge>) {
    forall e :: e in edges ==> Plain(e)
  }

  /** Node ids are unique, edges are not repeated, and no endpoint contains the separator. */
  ghost predicate WellFormed(g: Graph) {
    UniqueIDs(g.nodes) && Distinct(g.edges) && PlainEdges(g.edges)
  }

  ghost predicate Shows(s: State, n: Node) {
    n.id in s.nodes && Material(s.nodes[n.id]) == Material(n)
  }

  /** The browser holds exactly the graph's ids with materially equal nodes, and exactly its edges, each
      once. */
  ghost predicate Matches(s: State, g: Graph) {
    && s.nodes.Keys == IDs(g.nodes)
    && (forall n :: n in g.nodes ==> Shows(s, n))
    && Distinct(s.edges)
    && EdgeSet(s.edges) == EdgeSet(g.edges)
  }

  lemma SnapshotMatches(g: Graph)
    requires WellFormed(g)
    ensures Matches(SnapshotOf(g), g)
  {
    forall n | n in g.nodes ensures Shows(SnapshotOf(g), n) {
      ByIdOfUnique(g.nodes, n);
    }
    forall id ensures id in ById(g.nodes) <==> id in IDs(g.nodes) {
    }
  }

  lemma {:induction false} UpsertedIs(nodes: map<string, Node>, upserts: seq<Node>, id: string)
    ensures Get(Upserted(nodes, upserts), id) == if id in ById(upserts) then Some(ById(upserts)[id]) else Get(nodes, id)
  {
    if upserts != [] {
      UpsertedIs(nodes, upserts[..|upserts| - 1], id);
    }
  }

  lemma {:induction false} AddedIs(edges: seq<Edge>, more: seq<Edge>)
    requires Distinct(edges) && PlainEdges(edges) && PlainEdges(more)
    ensures Distinct(Added(edges, more))
    ensures forall e :: e in Added(edges, more) <==> e in edges || e in more
  {
    if more != [] {
      var init, e := more[..|more| - 1], more[|more| - 1];
      AddedIs(edges, init);
      var r := Added(edges, init);
      assert forall x :: x in more <==> x in init || x == e;
      assert e in r ==> EdgeKey(e) in KeySet(r);
      if EdgeKey(e) in KeySet(r) {
        var f :| f in r && EdgeKey(f) == EdgeKey(e);
        EdgeKeyIsFaithful(e, f);
      }
    }
  }

  lemma {:induction false} KeptIsDistinct(edges: seq<Edge>, removed: set<string>)
    requires Distinct(edges)
    ensures Distinct(Kept(edges, removed))
  {
    if edges != [] {
      KeptIsDistinct(edges[..|edges| - 1], removed);
    }
  }

  lemma KeptIs(edges: seq<Edge>, removes: seq<Edge>)
    requires PlainEdges(edges) && PlainEdges(removes)
    ensures forall e :: e in Kept(edges, KeySet(removes)) <==> e in edges && e !in removes
  {
    forall e | e in edges ensures EdgeKey(e) in KeySet(removes) <==> e in removes {
      if EdgeKey(e) in KeySet(removes) {
        var f :| f in removes && EdgeKey(f) == EdgeKey(e);
        EdgeKeyIsFaithful(e, f);
      }
    }
  }

  lemma PatchedEdges(s: State, prev: Graph, next: Graph)
    requires WellFormed(prev) && WellFormed(next) && Matches(s, prev)
    ensures
      var r := Patched(s, DiffOf(prev, next));
      Distinct(r.edges) && EdgeSet(r.edges) == EdgeSet(next.edges)
  {
    var p := DiffOf(prev, next);
    assert forall e :: e in s.edges <==> e in EdgeSet(s.edges);
    assert forall e :: e in prev.edges <==> e in EdgeSet(prev.edges);
    KeptIsDistinct(s.edges, KeySet(p.removeEdges));
    KeptIs(s.edges, p.removeEdges);
    AddedIs(Kept(s.edges, KeySet(p.removeEdges)), p.upsertEdges);
  }

  lemma PatchedNodes(s: State, prev: Graph, next: Graph)
    requires UniqueIDs(prev.nodes) && UniqueIDs(next.nodes) && Matches(s, prev)
    ensures
      var r := Patched(s, DiffOf(prev, next));
      r.nodes.Keys == IDs(next.nodes) && forall n :: n in next.nodes ==> Shows(r, n)
  {
    forall id ensures id in Patched(s, DiffOf(prev, next)).nodes <==> id in IDs(next.nodes) {
      PatchedID(s, prev, next, id);
    }
    forall n | n in next.nodes ensures Shows(Patched(s, DiffOf(prev, next)), n) {
      PatchedNode(s, prev, next, n);
    }
  }

  lemma PatchedNode(s: State, prev: Graph, next: Graph, n: Node)
    requires UniqueIDs(prev.nodes) && UniqueIDs(next.nodes) && Matches(s, prev) && n in next.nodes
    ensures Shows(Patched(s, DiffOf(prev, next)), n)
  {
    var p := DiffOf(prev, next);
    var changed := ById(p.upsertNodes);
    PatchedID(s, prev, next, n.id);
    assert n.id in IDs(next.nodes);
    UpsertedIs(s.nodes, p.upsertNodes, n.id);
    if n.id in changed {
      SameNode(next.nodes, changed[n.id], n);
    } else {
      assert n !in p.upsertNodes && !Changed(ById(prev.nodes), n);
      var m := ById(prev.nodes)[n.id];
      NodeEqualIffMaterial(m, n);
      assert Shows(s, m);
    }
  }

  lemma SameNode(nodes: seq<Node>, m: Node, n: Node)
    requires UniqueIDs(nodes) && m in nodes && n in nodes && m.id == n.id
    ensures m == n
  {
    ByIdOfUnique(nodes, m);
    ByIdOfUnique(nodes, n);
  }

  lemma PatchedID(s: State, prev: Graph, next: Graph, id: string)
    requires UniqueIDs(prev.nodes) && s.nodes.Keys == IDs(prev.nodes)
    ensures id in Patched(s, DiffOf(prev, next)).nodes <==> id in IDs(next.nodes)
  {
    var p := DiffOf(prev, next);
    UpsertedIs(s.nodes, p.upsertNodes, id);
    SortKeepsElements(MissingIDs(prev.nodes, IDs(next.nodes)), Itself);
    if id in IDs(next.nodes) {
      var n :| n in next.nodes && n.id == id;
      if Changed(ById(prev.nodes), n) {
        assert n in p.upsertNodes;
      } else {
        assert ById(prev.nodes)[id] in prev.nodes;
      }
    } else if id in IDs(prev.nodes) {
      assert id in p.removeNodeIDs;
    }
  }

  /** One patch brings a matching browser from one graph to the next. */
  lemma PatchKeepsMatch(s: State, prev: Graph, next: Graph)
    requires WellFormed(prev) && WellFormed(next) && Matches(s, prev)
    ensures Matches(Patched(s, DiffOf(prev, next)), next)
  {
    PatchedNodes(s, prev, next);
    PatchedEdges(s, prev, next);
  }

  /** A browser that matches a graph matches every materially equal one, so an empty patch need not be
      sent. */
  lemma SameGraphKeepsMatch(s: State, prev: Graph, next: Graph)
    requires Matches(s, prev) && SameGraph(prev, next)
    ensures Matches(s, next)
  {
    forall n | n in next.nodes ensures Shows(s, n) {
      assert n.id in IDs(next.nodes);
      var m :| m in prev.nodes && m.id == n.id;
      assert Shows(s, m);
    }
  }

  /** What the browser holds after a snapshot of the first graph and one message per later graph, with
      nothing sent for an empty patch. */
  ghost function Fed(graphs: seq<Graph>): State
    requires graphs != []
  {
    if |graphs| == 1 then SnapshotOf(graphs[0])
    else
      var init := graphs[..|graphs| - 1];
      var p := DiffOf(init[|init| - 1], graphs[|graphs| - 1]);
      if p.Empty() then Fed(init) else Patched(Fed(init), p)
  }

  /** One more graph: a message goes out unless there is nothing to say. */
  lemma FeedKeepsMatch(fed: State, prev: Graph, next: Graph)
    requires Matches(fed, prev) && WellFormed(prev) && WellFormed(next)
    ensures Matches(if DiffOf(prev, next).Empty() then fed else Patched(fed, DiffOf(prev, next)), next)
  {
    EmptyIffSame(prev, next);
    if DiffOf(prev, next).Empty() {
      SameGraphKeepsMatch(fed, prev, next);
    } else {
      PatchKeepsMatch(fed, prev, next);
    }
  }

  /** After a snapshot and any sequence of patches the browser matches the latest graph. */
  lemma {:induction false} FedMatchesLatest(graphs: seq<Graph>)
    requires graphs != [] && forall i :: 0 <= i < |graphs| ==> WellFormed(graphs[i])
    ensures Matches(Fed(graphs), graphs[|graphs| - 1])
  {
    var n := |graphs| - 1;
    if n == 0 {
      SnapshotMatches(graphs[0]);
    } else {
      FedMatchesLatest(graphs[..n]);
      FeedKeepsMatch(Fed(graphs[..n]), graphs[n - 1], graphs[n]);
    }
  }

  // ---- nodes are held whole ----

  /** A snapshot is held as it was sent: every node whole, the fields that no comparison looks at included. */
  lemma SnapshotIsHeldWhole(g: Graph)
    requires UniqueIDs(g.nodes)
    ensures forall n :: n in g.nodes ==> Get(SnapshotOf(g).nodes, n.id) == Some(n)
    ensures forall id :: id in SnapshotOf(g).nodes ==> exists n :: n in g.nodes && n.id == id
    ensures SnapshotOf(g).edges == g.edges
  {
    forall n | n in g.nodes ensures Get(SnapshotOf(g).nodes, n.id) == Some(n) {
      ByIdOfUnique(g.nodes, n);
    }
  }

  /** So are the nodes of a patch, and those it does not name stay as they are. */
  lemma PatchIsHeldWhole(s: State, p: Patch)
    requires UniqueIDs(p.upsertNodes)
    ensures forall n :: n in p.upsertNodes && n.id !in p.removeNodeIDs ==> Get(Patched(s, p).nodes, n.id) == Some(n)
    ensures forall id :: id in p.removeNodeIDs ==> id !in Patched(s, p).nodes
    ensures forall id :: id !in p.removeNodeIDs && (forall n :: n in p.upsertNodes ==> n.id != id) ==>
              Get(Patched(s, p).nodes, id) == Get(s.nodes, id)
  {
    forall id ensures Get(Upserted(s.nodes, p.upsertNodes), id)
                   == if id in ById(p.upsertNodes) then Some(ById(p.upsertNodes)[id]) else Get(s.nodes, id)
    {
      UpsertedIs(s.nodes, p.upsertNodes, id);
    }
    forall n | n in p.upsertNodes ensures ById(p.upsertNodes)[n.id] == n {
      ByIdOfUnique(p.upsertNodes, n);
    }
  }

  /** Over edges whose ids hold no separator: what is removed goes, what is upserted is there, nothing twice, and the
      rest stays. */
  lemma PatchedEdgesAre(s: State, p: Patch)
    requires PlainEdges(s.edges) && PlainEdges(p.removeEdges) && PlainEdges(p.upsertEdges) && Distinct(s.edges)
    ensures Distinct(Patched(s, p).edges)
    ensures forall e :: e in Patched(s, p).edges <==> e in p.upsertEdges || (e in s.edges && e !in p.removeEdges)
  {
    KeptIsDistinct(s.edges, KeySet(p.removeEdges));
    KeptIs(s.edges, p.removeEdges);
    AddedIs(Kept(s.edges, KeySet(p.removeEdges)), p.upsertEdges);
  }

  /** Every node that a patched browser holds was held before or sent with the patch. */
  lemma PatchedNodesAreSent(s: State, p: Patch, id: string)
    requires id in Patched(s, p).nodes
    ensures Get(s.nodes, id) == Some(Patched(s, p).nodes[id]) || Patched(s, p).nodes[id] in p.upsertNodes
  {
    UpsertedIs(s.nodes, p.upsertNodes, id);
  }

  ghost predicate Precedes(edges: seq<Edge>, x: Edge, y: Edge) {
    exists i, j :: 0 <= i < j < |edges| && edges[i] == x && edges[j] == y
  }

  lemma {:induction false} AddedExtends(edges: seq<Edge>, more: seq<Edge>)
    ensures edges <= Added(edges, more)
  {
    if more != [] {
      AddedExtends(edges, more[..|more| - 1]);
    }
  }

  lemma {:induction false} KeptInOrder(edges: seq<Edge>, removed: set<string>, i: nat, j: nat)
    requires i < j < |edges| && EdgeKey(edges[i]) !in removed && EdgeKey(edges[j]) !in removed
    ensures Precedes(Kept(edges, removed), edges[i], edges[j])
  {
    var init := edges[..|edges| - 1];
    if j < |edges| - 1 {
      KeptInOrder(init, removed, i, j);
      var kept, r := Kept(init, removed), Kept(edges, removed);
      var a, b :| 0 <= a < b < |kept| && kept[a] == edges[i] && kept[b] == edges[j];
      assert r[a] == edges[i] && r[b] == edges[j];
    } else {
      assert init[i] in Kept(init, removed);
      var a :| 0 <= a < |Kept(init, removed)| && Kept(init, removed)[a] == edges[i];
      var r := Kept(edges, removed);
      assert r[a] == edges[i] && r[|r| - 1] == edges[j];
    }
  }

  /** The edges that stay keep their order, and new ones come after them. */
  lemma PatchedEdgesInOrder(s: State, p: Patch, i: nat, j: nat, e: Edge)
    requires i < j < |s.edges| && EdgeKey(s.edges[i]) !in KeySet(p.removeEdges)
    requires EdgeKey(s.edges[j]) !in KeySet(p.removeEdges)
    requires e in Patched(s, p).edges && e !in Kept(s.edges, KeySet(p.removeEdges))
    ensures Precedes(Patched(s, p).edges, s.edges[i], s.edges[j]) && Precedes(Patched(s, p).edges, s.edges[j], e)
  {
    var kept, r := Kept(s.edges, KeySet(p.removeEdges)), Patched(s, p).edges;
    AddedExtends(kept, p.upsertEdges);
    KeptInOrder(s.edges, KeySet(p.removeEdges), i, j);
    var a, b :| 0 <= a < b < |kept| && kept[a] == s.edges[i] && kept[b] == s.edges[j];
    assert r[a] == kept[a] && r[b] == kept[b];
    var c :| 0 <= c < |r| && r[c] == e;
    InPrefix(kept, r, c);
  }

  lemma InPrefix<T>(prefix: seq<T>, s: seq<T>, i: nat)
    requires prefix <= s && i < |s|
    ensures i < |prefix| ==> s[i] in prefix
  {
    if i < |prefix| {
      assert s[i] == prefix[i];
    }
  }
}
