/** internal/kube/graph/diff.go: the patch that turns one graph into the next. */
module GraphDiff {
  import opened Prelude
  import opened GraphModel
  import opened Sorting

  datatype Patch = Patch(upsertNodes: seq<Node>, removeNodeIDs: seq<string>,
                         upsertEdges: seq<Edge>, removeEdges: seq<Edge>)
  {
    function Empty(): bool {
      |upsertNodes| == 0 && |removeNodeIDs| == 0 && |upsertEdges| == 0 && |removeEdges| == 0
    }
  }

  /** Nodes by id; on a repeated id the later node wins. */
  function ById(nodes: seq<Node>): (m: map<string, Node>)
    ensures forall id :: id in m ==> m[id] in nodes && m[id].id == id
    ensures forall n :: n in nodes ==> n.id in m
  {
    if nodes == [] then map[]
    else ById(nodes[..|nodes| - 1])[nodes[|nodes| - 1].id := nodes[|nodes| - 1]]
  }

  predicate Changed(before: map<string, Node>, n: Node) {
    n.id !in before || !NodeEqual(before[n.id], n)
  }

  function ChangedNodes(before: map<string, Node>, nodes: seq<Node>): (r: seq<Node>)
    ensures forall n :: n in r <==> n in nodes && Changed(before, n)
  {
    if nodes == [] then []
    else
      var n := nodes[|nodes| - 1];
      ChangedNodes(before, nodes[..|nodes| - 1]) + (if Changed(before, n) then [n] else [])
  }

  function MissingIDs(nodes: seq<Node>, ids: set<string>): (r: seq<string>)
    ensures forall id :: id in r <==> id !in ids && exists n :: n in nodes && n.id == id
  {
    if nodes == [] then []
    else
      var n := nodes[|nodes| - 1];
      MissingIDs(nodes[..|nodes| - 1], ids) + (if n.id in ids then [] else [n.id])
  }

  function MissingEdges(edges: seq<Edge>, others: set<Edge>): (r: seq<Edge>)
    ensures forall e :: e in r <==> e in edges && e !in others
  {
    if edges == [] then []
    else
      var e := edges[|edges| - 1];
      MissingEdges(edges[..|edges| - 1], others) + (if e in others then [] else [e])
  }

  function IDs(nodes: seq<Node>): set<string> {
    set n | n in nodes :: n.id
  }

  function EdgeSet(edges: seq<Edge>): set<Edge> {
    set e | e in edges
  }

  function GoneIDs(prev: Graph, next: Graph): seq<string> {
    Sort(MissingIDs(prev.nodes, IDs(next.nodes)))
  }

  function DiffOf(prev: Graph, next: Graph): Patch {
    Patch(ChangedNodes(ById(prev.nodes), next.nodes), GoneIDs(prev, next),
          MissingEdges(next.edges, EdgeSet(prev.edges)), MissingEdges(prev.edges, EdgeSet(next.edges)))
  }

  lemma IDsSnoc(nodes: seq<Node>, i: nat)
    requires i < |nodes|
    ensures IDs(nodes[..i + 1]) == IDs(nodes[..i]) + {nodes[i].id}
  {
    assert nodes[..i + 1] == nodes[..i] + [nodes[i]];
  }

  method Diff(prev: Graph, next: Graph) returns (p: Patch)
    ensures p == DiffOf(prev, next)
  {
    var upsertNodes, removeNodeIDs := DiffNodes(prev.nodes, next.nodes);
    var upsertEdges := EdgesMissingFrom(next.edges, prev.edges);
    var removeEdges := EdgesMissingFrom(prev.edges, next.edges);
    p := Patch(upsertNodes, Sort(removeNodeIDs), upsertEdges, removeEdges);
  }

  lemma ByIdNext(nodes: seq<Node>, i: nat)
    requires i < |nodes|
    ensures ById(nodes[..i + 1]) == ById(nodes[..i])[nodes[i].id := nodes[i]]
  {
    assert nodes[..i + 1][..i] == nodes[..i];
  }

  method IndexById(nodes: seq<Node>) returns (m: map<string, Node>)
    ensures m == ById(nodes)
  {
    m := map[];
    for i := 0 to |nodes|
      invariant m == ById(nodes[..i])
    {
      ByIdNext(nodes, i);
      m := m[nodes[i].id := nodes[i]];
    }
    assert nodes[..|nodes|] == nodes;
  }

  method DiffNodes(prev: seq<Node>, next: seq<Node>) returns (upserts: seq<Node>, removes: seq<string>)
    ensures upserts == ChangedNodes(ById(prev), next) && removes == MissingIDs(prev, IDs(next))
  {
    var prevNodes := IndexById(prev);
    var nextIDs: set<string> := {};
    upserts := [];
    for i := 0 to |next|
      invariant nextIDs == IDs(next[..i])
      invariant upserts == ChangedNodes(prevNodes, next[..i])
    {
      assert next[..i + 1][..i] == next[..i];
      IDsSnoc(next, i);
      nextIDs := nextIDs + {next[i].id};
      if next[i].id !in prevNodes || !NodeEqual(prevNodes[next[i].id], next[i]) {
        upserts := upserts + [next[i]];
      }
    }
    assert next[..|next|] == next;
    removes := RemovedIDs(prev, nextIDs);
  }

  method RemovedIDs(prev: seq<Node>, nextIDs: set<string>) returns (removes: seq<string>)
    ensures removes == MissingIDs(prev, nextIDs)
  {
    removes := [];
    for i := 0 to |prev|
      invariant removes == MissingIDs(prev[..i], nextIDs)
    {
      assert prev[..i + 1][..i] == prev[..i];
      if prev[i].id !in nextIDs {
        removes := removes + [prev[i].id];
      }
    }
    assert prev[..|prev|] == prev;
  }

  method EdgesMissingFrom(edges: seq<Edge>, others: seq<Edge>) returns (missing: seq<Edge>)
    ensures missing == MissingEdges(edges, EdgeSet(others))
  {
    var present: set<Edge> := {};
    for i := 0 to |others|
      invariant present == EdgeSet(others[..i])
    {
      present := present + {others[i]};
    }
    assert others[..|others|] == others;
    missing := [];
    for i := 0 to |edges|
      invariant missing == MissingEdges(edges[..i], present)
    {
      assert edges[..i + 1][..i] == edges[..i];
      if edges[i] !in present {
        missing := missing + [edges[i]];
      }
    }
    assert edges[..|edges|] == edges;
  }

  // ---- what a patch is worth ----

  ghost predicate UniqueIDs(nodes: seq<Node>) {
    forall i, j :: 0 <= i < j < |nodes| ==> nodes[i].id != nodes[j].id
  }

  /** The graphs show the same: the same ids with materially equal nodes, and the same edges. */
  ghost predicate SameGraph(a: Graph, b: Graph) {
    && IDs(a.nodes) == IDs(b.nodes)
    && (forall m, n :: m in a.nodes && n in b.nodes && m.id == n.id ==> Material(m) == Material(n))
    && EdgeSet(a.edges) == EdgeSet(b.edges)
  }

  lemma {:induction false} ByIdOfUnique(nodes: seq<Node>, n: Node)
    requires UniqueIDs(nodes) && n in nodes
    ensures ById(nodes)[n.id] == n
  {
    var init, last := nodes[..|nodes| - 1], nodes[|nodes| - 1];
    if n != last {
      var i :| 0 <= i < |nodes| && nodes[i] == n;
      assert init[i] == n;
      ByIdOfUnique(init, n);
    }
  }

  lemma ChangedIff(prev: seq<Node>, m: Node, n: Node)
    requires UniqueIDs(prev) && m in prev && m.id == n.id
    ensures Changed(ById(prev), n) <==> Material(m) != Material(n)
  {
    ByIdOfUnique(prev, m);
    NodeEqualIffMaterial(m, n);
  }

  /** A patch is empty exactly when there is nothing to show: the graphs are materially equal. */
  lemma EmptyIffSame(prev: Graph, next: Graph)
    requires UniqueIDs(prev.nodes)
    ensures DiffOf(prev, next).Empty() <==> SameGraph(prev, next)
  {
    if DiffOf(prev, next).Empty() {
      SilentMeansSame(prev, next);
    }
    if SameGraph(prev, next) {
      SameMeansSilent(prev, next);
    }
  }

  lemma SilentMeansSame(prev: Graph, next: Graph)
    requires UniqueIDs(prev.nodes) && DiffOf(prev, next).Empty()
    ensures SameGraph(prev, next)
  {
    var before := ById(prev.nodes);
    SortKeepsElements(MissingIDs(prev.nodes, IDs(next.nodes)), Itself);
    forall n | n in next.nodes ensures !Changed(before, n) {
      assert n !in ChangedNodes(before, next.nodes);
    }
    forall id ensures id in IDs(prev.nodes) <==> id in IDs(next.nodes) {
      assert id !in MissingIDs(prev.nodes, IDs(next.nodes));
      if id in IDs(next.nodes) {
        var n :| n in next.nodes && n.id == id;
        assert !Changed(before, n) && before[id] in prev.nodes;
      }
    }
    forall m, n | m in prev.nodes && n in next.nodes && m.id == n.id ensures Material(m) == Material(n) {
      ChangedIff(prev.nodes, m, n);
    }
    forall e ensures e in EdgeSet(prev.edges) <==> e in EdgeSet(next.edges) {
      assert e !in MissingEdges(prev.edges, EdgeSet(next.edges)) && e !in MissingEdges(next.edges, EdgeSet(prev.edges));
    }
  }

  lemma SameMeansSilent(prev: Graph, next: Graph)
    requires UniqueIDs(prev.nodes) && SameGraph(prev, next)
    ensures DiffOf(prev, next).Empty()
  {
    var before := ById(prev.nodes);
    forall n | n in next.nodes ensures !Changed(before, n) {
      assert n.id in IDs(prev.nodes);
      var m :| m in prev.nodes && m.id == n.id;
      ChangedIff(prev.nodes, m, n);
    }
    NoElements(ChangedNodes(before, next.nodes));
    forall id ensures id !in MissingIDs(prev.nodes, IDs(next.nodes)) {
      assert id in IDs(prev.nodes) ==> id in IDs(next.nodes);
    }
    NoElements(MissingIDs(prev.nodes, IDs(next.nodes)));
    SortKeepsElements(MissingIDs(prev.nodes, IDs(next.nodes)), Itself);
    assert forall e :: e in prev.edges <==> e in EdgeSet(prev.edges);
    assert forall e :: e in next.edges <==> e in EdgeSet(next.edges);
    NoElements(MissingEdges(next.edges, EdgeSet(prev.edges)));
    NoElements(MissingEdges(prev.edges, EdgeSet(next.edges)));
  }

  // ---- a patch names what differs, and nothing else ----

  lemma {:induction false} ChangedAreUnique(before: map<string, Node>, nodes: seq<Node>)
    requires UniqueIDs(nodes)
    ensures UniqueIDs(ChangedNodes(before, nodes))
  {
    if nodes != [] {
      var init, last := nodes[..|nodes| - 1], nodes[|nodes| - 1];
      ChangedAreUnique(before, init);
      var r := ChangedNodes(before, init);
      forall i | 0 <= i < |r| ensures r[i].id != last.id {
        assert r[i] in init;
      }
    }
  }

  lemma {:induction false} MissingAreDistinct(nodes: seq<Node>, ids: set<string>)
    requires UniqueIDs(nodes)
    ensures Distinct(MissingIDs(nodes, ids))
  {
    if nodes != [] {
      var init, last := nodes[..|nodes| - 1], nodes[|nodes| - 1];
      MissingAreDistinct(init, ids);
      var r := MissingIDs(init, ids);
      forall i | 0 <= i < |r| ensures r[i] != last.id {
        assert r[i] in r;
        var n :| n in init && n.id == r[i];
      }
    }
  }

  /** The nodes sent are those of the next graph that are new or differ materially, each once. */
  lemma PatchedNodesDiffer(prev: Graph, next: Graph)
    requires UniqueIDs(prev.nodes) && UniqueIDs(next.nodes)
    ensures
      var upserts := DiffOf(prev, next).upsertNodes;
      && UniqueIDs(upserts)
      && forall n :: n in upserts <==>
           n in next.nodes && forall m :: m in prev.nodes && m.id == n.id ==> Material(m) != Material(n)
  {
    var upserts := ChangedNodes(ById(prev.nodes), next.nodes);
    ChangedAreUnique(ById(prev.nodes), next.nodes);
    forall n ensures n in upserts <==>
                     n in next.nodes && forall m :: m in prev.nodes && m.id == n.id ==> Material(m) != Material(n)
    {
      ChangedIsMaterial(prev.nodes, n);
    }
  }

  ghost predicate IsGone(prev: Graph, next: Graph, x: string) {
    (exists m :: m in prev.nodes && m.id == x) && forall n :: n in next.nodes ==> n.id != x
  }

  lemma RemovedAreGone(prev: Graph, next: Graph, x: string)
    ensures x in GoneIDs(prev, next) <==> IsGone(prev, next, x)
  {
    SortKeepsElements(MissingIDs(prev.nodes, IDs(next.nodes)), Itself);
    assert x !in IDs(next.nodes) <==> forall n :: n in next.nodes ==> n.id != x;
  }

  lemma RemovedInOrder(prev: Graph, next: Graph)
    requires UniqueIDs(prev.nodes)
    ensures Distinct(GoneIDs(prev, next)) && Ascending(GoneIDs(prev, next), Itself)
  {
    MissingAreDistinct(prev.nodes, IDs(next.nodes));
    SortStaysDistinct(MissingIDs(prev.nodes, IDs(next.nodes)), Itself);
  }

  /** The ids sent are those that are gone, each once and in order. */
  lemma RemovedIDsAreGone(prev: Graph, next: Graph)
    requires UniqueIDs(prev.nodes)
    ensures
      var removes := DiffOf(prev, next).removeNodeIDs;
      Distinct(removes) && Ascending(removes, Itself) && forall x :: x in removes <==> IsGone(prev, next, x)
  {
    RemovedInOrder(prev, next);
    forall x ensures x in GoneIDs(prev, next) <==> IsGone(prev, next, x) {
      RemovedAreGone(prev, next, x);
    }
  }

  lemma ChangedIsMaterial(nodes: seq<Node>, n: Node)
    requires UniqueIDs(nodes)
    ensures Changed(ById(nodes), n) <==> forall m :: m in nodes && m.id == n.id ==> Material(m) != Material(n)
  {
    forall m | m in nodes && m.id == n.id ensures ById(nodes)[n.id] == m {
      ByIdOfUnique(nodes, m);
    }
    if n.id in ById(nodes) {
      NodeEqualIffMaterial(ById(nodes)[n.id], n);
    }
  }

  /** The edges sent are those of one graph that the other has not. */
  lemma PatchedEdgesDiffer(prev: Graph, next: Graph)
    ensures
      var p := DiffOf(prev, next);
      && (forall e :: e in p.upsertEdges <==> e in next.edges && e !in prev.edges)
      && (forall e :: e in p.removeEdges <==> e in prev.edges && e !in next.edges)
  {
  }
}
