/** internal/kube/graph/filter.go and edges.go: owner edges and the walk down them. */
module Descendants {
  import opened Prelude
  import opened Sorting
  import opened GraphModel

  const OwnerReference := "ownerReference"

  /** What the walks read of a graph node. */
  datatype LogNode = LogNode(id: string, kind: string, ns: string, name: string, ownerUIDs: seq<string>)

  datatype PodIdentity = PodIdentity(ns: string, name: string)

  function LogIDs(nodes: seq<LogNode>): set<string> {
    set n | n in nodes :: n.id
  }

  // ---- building owner edges ----

  /** An owner edge leads from a node to each node that names it as an owner. */
  predicate IsOwnerEdge(nodes: seq<LogNode>, e: Edge) {
    e.typ == OwnerReference && e.src in LogIDs(nodes) && exists n :: n in nodes && n.id == e.dst && e.src in n.ownerUIDs
  }

  /** An owner edge into a node, from one of the given owners that is a node itself. */
  predicate OwnsNode(n: LogNode, owners: seq<string>, uids: set<string>, e: Edge) {
    e.typ == OwnerReference && e.dst == n.id && e.src in owners && e.src in uids
  }

  class EdgeBuilder {
    var edges: seq<Edge>
    var seen: set<Edge>

    ghost predicate Valid()
      reads this
    {
      Distinct(edges) && forall e :: e in seen <==> e in edges
    }

    constructor ()
      ensures Valid() && edges == []
    {
      edges, seen := [], {};
    }

    /** Appends an edge unless it is already there. */
    method Add(e: Edge)
      requires Valid()
      modifies this
      ensures Valid()
      ensures edges == if e in old(edges) then old(edges) else old(edges) + [e]
    {
      if e in seen {
        return;
      }
      seen := seen + {e};
      edges := edges + [e];
    }

    /** The owner edges into one node. */
    method AddOwners(n: LogNode, uids: set<string>)
      requires Valid()
      modifies this
      ensures Valid()
      ensures forall e :: e in edges <==> e in old(edges) || OwnsNode(n, n.ownerUIDs, uids, e)
    {
      for i := 0 to |n.ownerUIDs|
        invariant Valid()
        invariant forall e :: e in edges <==> e in old(edges) || OwnsNode(n, n.ownerUIDs[..i], uids, e)
      {
        assert n.ownerUIDs[..i + 1] == n.ownerUIDs[..i] + [n.ownerUIDs[i]];
        if n.ownerUIDs[i] in uids {
          Add(Edge(n.ownerUIDs[i], n.id, OwnerReference));
        }
      }
      assert n.ownerUIDs[..|n.ownerUIDs|] == n.ownerUIDs;
    }
  }

  ghost predicate OwnerEdgesOf(edges: seq<Edge>, nodes: seq<LogNode>) {
    forall e :: e in edges && e.typ == OwnerReference <==> IsOwnerEdge(nodes, e)
  }

  predicate IsOwnerEdgeInto(nodes: seq<LogNode>, uids: set<string>, e: Edge) {
    e.typ == OwnerReference && e.src in uids && exists n :: n in nodes && n.id == e.dst && e.src in n.ownerUIDs
  }

  /** The edges of a graph: its owner edges, and what the other inferrers add through the same builder. */
  method BuildEdges(nodes: seq<LogNode>, inferred: seq<Edge>) returns (edges: seq<Edge>)
    requires forall e :: e in inferred ==> e.typ != OwnerReference
    ensures OwnerEdgesOf(edges, nodes) && Distinct(edges)
    ensures forall e :: e in edges && e.typ != OwnerReference <==> e in inferred
  {
    var b := new EdgeBuilder();
    var uids := set n | n in nodes :: n.id;
    for i := 0 to |nodes|
      invariant b.Valid() && fresh(b)
      invariant forall e :: e in b.edges <==> IsOwnerEdgeInto(nodes[..i], uids, e)
    {
      ghost var before := b.edges;
      b.AddOwners(nodes[i], uids);
      OneMoreNode(nodes, i, uids, before, b.edges);
    }
    assert nodes[..|nodes|] == nodes;
    ghost var owned := b.edges;
    for i := 0 to |inferred|
      invariant b.Valid() && fresh(b)
      invariant forall e :: e in b.edges <==> e in owned || e in inferred[..i]
    {
      assert inferred[..i + 1] == inferred[..i] + [inferred[i]];
      b.Add(inferred[i]);
    }
    assert inferred[..|inferred|] == inferred;
    edges := b.edges;
    assert forall e :: e in owned <==> IsOwnerEdge(nodes, e);
  }

  lemma OneMoreNode(nodes: seq<LogNode>, i: nat, uids: set<string>, before: seq<Edge>, after: seq<Edge>)
    requires i < |nodes|
    requires forall e :: e in before <==> IsOwnerEdgeInto(nodes[..i], uids, e)
    requires forall e :: e in after <==> e in before || OwnsNode(nodes[i], nodes[i].ownerUIDs, uids, e)
    ensures forall e :: e in after <==> IsOwnerEdgeInto(nodes[..i + 1], uids, e)
  {
    assert nodes[..i + 1] == nodes[..i] + [nodes[i]];
  }

  // ---- the walk down ----

  predicate Down(edges: seq<Edge>, x: string, y: string) {
    Edge(x, y, OwnerReference) in edges
  }

  ghost predicate DownPath(edges: seq<Edge>, p: seq<string>) {
    p != [] && forall i :: 0 < i < |p| ==> Down(edges, p[i - 1], p[i])
  }

  ghost predicate Reaches(edges: seq<Edge>, x: string, y: string) {
    exists p :: DownPath(edges, p) && p[0] == x && p[|p| - 1] == y
  }

  lemma ReachesItself(edges: seq<Edge>, x: string)
    ensures Reaches(edges, x, x)
  {
    assert DownPath(edges, [x]);
  }

  lemma StepThenReach(edges: seq<Edge>, x: string, y: string, z: string)
    requires Down(edges, x, y) && Reaches(edges, y, z)
    ensures Reaches(edges, x, z)
  {
    var p :| DownPath(edges, p) && p[0] == y && p[|p| - 1] == z;
    var q := [x] + p;
    forall i | 0 < i < |q| ensures Down(edges, q[i - 1], q[i]) {
      assert i > 1 ==> Down(edges, p[i - 2], p[i - 1]);
    }
    assert DownPath(edges, q);
  }

  function Kids(children: map<string, seq<string>>, x: string): seq<string> {
    if x in children then children[x] else []
  }

  ghost predicate ChildrenOf(children: map<string, seq<string>>, edges: seq<Edge>) {
    forall x, y :: y in Kids(children, x) <==> Down(edges, x, y)
  }

  method ChildLists(edges: seq<Edge>) returns (children: map<string, seq<string>>)
    ensures ChildrenOf(children, edges)
  {
    children := map[];
    for i := 0 to |edges|
      invariant ChildrenOf(children, edges[..i])
    {
      assert edges[..i + 1] == edges[..i] + [edges[i]];
      ghost var before := children;
      if edges[i].typ == OwnerReference {
        children := children[edges[i].src := Kids(children, edges[i].src) + [edges[i].dst]];
      }
      forall x, y ensures y in Kids(children, x) <==> Down(edges[..i + 1], x, y) {
        assert y in Kids(before, x) <==> Down(edges[..i], x, y);
      }
    }
    assert edges[..|edges|] == edges;
  }

  ghost predicate KidsSeen(edges: seq<Edge>, seen: set<string>, x: string) {
    forall y :: Down(edges, x, y) ==> y in seen
  }

  ghost predicate TargetsWithin(edges: seq<Edge>, universe: set<string>) {
    forall e :: e in edges ==> e.dst in universe
  }

  /** What the walk from `cur` added to `before`: nodes reachable from it, each with its children seen. */
  ghost predicate Explored(edges: seq<Edge>, cur: string, before: set<string>, seen: set<string>, x: string) {
    x in seen && x !in before ==> Reaches(edges, cur, x) && KidsSeen(edges, seen, x)
  }

  /** The same while children of `cur` are still to be walked. */
  ghost predicate Exploring(edges: seq<Edge>, cur: string, before: set<string>, seen: set<string>, x: string) {
    x in seen && x !in before && x != cur ==> Reaches(edges, cur, x) && KidsSeen(edges, seen, x)
  }

  lemma ExploreChild(edges: seq<Edge>, cur: string, c: string, before: set<string>, mid: set<string>,
                     after: set<string>)
    requires before <= mid <= after && Down(edges, cur, c)
    requires forall x :: Exploring(edges, cur, before, mid, x)
    requires forall x :: Explored(edges, c, mid, after, x)
    ensures forall x :: Exploring(edges, cur, before, after, x)
  {
    forall x ensures Exploring(edges, cur, before, after, x) {
      assert Exploring(edges, cur, before, mid, x) && Explored(edges, c, mid, after, x);
      if x in after && x !in mid {
        StepThenReach(edges, cur, c, x);
      }
    }
  }

  class Walker {
    var seen: set<string>
    var out: seq<string>

    ghost predicate Valid()
      reads this
    {
      Distinct(out) && forall x :: x in out <==> x in seen
    }

    constructor ()
      ensures Valid() && seen == {}
    {
      seen, out := {}, [];
    }

    method Walk(children: map<string, seq<string>>, cur: string, ghost edges: seq<Edge>, ghost universe: set<string>)
      requires Valid() && ChildrenOf(children, edges)
      requires cur in universe && TargetsWithin(edges, universe)
      modifies this
      ensures Valid() && old(seen) <= seen && cur in seen
      ensures forall x :: Explored(edges, cur, old(seen), seen, x)
      decreases universe - seen
    {
      if cur in seen {
        return;
      }
      seen := seen + {cur};
      out := out + [cur];
      var kids := Kids(children, cur);
      for i := 0 to |kids|
        invariant Valid() && old(seen) + {cur} <= seen
        invariant forall x :: x in kids[..i] ==> x in seen
        invariant forall x :: Exploring(edges, cur, old(seen), seen, x)
      {
        assert kids[i] in kids && Down(edges, cur, kids[i]);
        assert cur in (universe - old(seen)) - (universe - seen);
        ghost var mid := seen;
        Walk(children, kids[i], edges, universe);
        ExploreChild(edges, cur, kids[i], old(seen), mid, seen);
        assert kids[..i + 1] == kids[..i] + [kids[i]];
      }
      assert kids[..|kids|] == kids;
      ReachesItself(edges, cur);
      forall x ensures Explored(edges, cur, old(seen), seen, x) {
        assert Exploring(edges, cur, old(seen), seen, x);
      }
    }
  }

  lemma {:induction false} ClosedHoldsReachable(edges: seq<Edge>, seen: set<string>, p: seq<string>)
    requires DownPath(edges, p) && p[0] in seen && forall x :: x in seen ==> KidsSeen(edges, seen, x)
    ensures p[|p| - 1] in seen
  {
    if |p| > 1 {
      assert Down(edges, p[0], p[1]) && KidsSeen(edges, seen, p[0]);
      assert DownPath(edges, p[1..]) by {
        assert forall i :: 1 < i < |p| ==> Down(edges, p[i - 1], p[i]);
      }
      ClosedHoldsReachable(edges, seen, p[1..]);
    }
  }

  /** Every node reachable down owner edges from `id`, itself included, once and in order; cycles and
      diamonds included, it terminates. */
  method DescendantIDs(edges: seq<Edge>, id: string) returns (out: seq<string>)
    ensures forall x :: x in out <==> Reaches(edges, id, x)
    ensures Ascending(out, Itself) && Distinct(out)
  {
    var children := ChildLists(edges);
    var w := new Walker();
    ghost var universe := (set e | e in edges :: e.dst) + {id};
    w.Walk(children, id, edges, universe);
    WalkedIsReachable(edges, id, w.seen);
    SortKeepsElements(w.out, Itself);
    SortStaysDistinct(w.out, Itself);
    out := Sort(w.out);
  }

  lemma WalkedIsReachable(edges: seq<Edge>, id: string, seen: set<string>)
    requires id in seen && forall x :: Explored(edges, id, {}, seen, x)
    ensures forall x :: x in seen <==> Reaches(edges, id, x)
  {
    assert forall x :: x in seen ==> Explored(edges, id, {}, seen, x);
    forall x | Reaches(edges, id, x) ensures x in seen {
      var p :| DownPath(edges, p) && p[0] == id && p[|p| - 1] == x;
      ClosedHoldsReachable(edges, seen, p);
    }
  }

  // ---- the pods below a node ----

  function LogNodeByID(nodes: seq<LogNode>): (m: map<string, LogNode>)
    ensures forall n :: n in nodes ==> n.id in m
    ensures forall x :: x in m ==> m[x] in nodes && m[x].id == x
  {
    if nodes == [] then map[]
    else LogNodeByID(nodes[..|nodes| - 1])[nodes[|nodes| - 1].id := nodes[|nodes| - 1]]
  }

  /** `p` is a pod at or below `id`. */
  ghost predicate PodBelow(nodes: seq<LogNode>, edges: seq<Edge>, id: string, p: PodIdentity) {
    exists d :: Reaches(edges, id, d) && IsPod(nodes, d, p)
  }

  predicate IsPod(nodes: seq<LogNode>, d: string, p: PodIdentity) {
    d in LogNodeByID(nodes) && var n := LogNodeByID(nodes)[d]; n.kind == "Pod" && p == PodIdentity(n.ns, n.name)
  }

  function PodKeys(p: PodIdentity): seq<string> {
    [p.ns, p.name]
  }

  /** By namespace first, then by name. */
  lemma PodsInOrder(pods: seq<PodIdentity>, i: nat, j: nat)
    requires Ascending(pods, PodKeys) && i < j < |pods|
    ensures Below(pods[i].ns, pods[j].ns) && (pods[i].ns == pods[j].ns ==> Below(pods[i].name, pods[j].name))
  {
    assert InKeyOrder(pods, PodKeys, i, j);
    TwoKeys(pods[i].ns, pods[i].name, pods[j].ns, pods[j].name);
  }

  /** Every pod at or below `id`, by namespace and then name. */
  method DescendantPods(nodes: seq<LogNode>, edges: seq<Edge>, id: string) returns (pods: seq<PodIdentity>)
    ensures forall p :: p in pods <==> PodBelow(nodes, edges, id, p)
    ensures Ascending(pods, PodKeys)
  {
    var byID := LogNodeByID(nodes);
    var descendants := DescendantIDs(edges, id);
    var found: seq<PodIdentity> := [];
    for i := 0 to |descendants|
      invariant forall p :: p in found <==> exists d :: d in descendants[..i] && IsPod(nodes, d, p)
    {
      var d := descendants[i];
      assert descendants[..i + 1] == descendants[..i] + [d];
      if d in byID && byID[d].kind == "Pod" {
        found := found + [PodIdentity(byID[d].ns, byID[d].name)];
        assert IsPod(nodes, d, found[|found| - 1]);
      }
    }
    assert descendants[..|descendants|] == descendants;
    SortKeepsElements(found, PodKeys);
    pods := SortBy(found, PodKeys);
  }
}
