/** web/src/graphState.ts, spotlightSubtree: the connected component that a selection lights up. */
module Spotlight {
  import opened GraphModel
  import opened GraphState

  predicate Touches(e: Edge, x: string) {
    e.src == x || e.dst == x
  }

  function OtherEnd(e: Edge, x: string): string {
    if e.src == x then e.dst else e.src
  }

  /** One step along an edge, in either direction. */
  predicate Linked(edges: seq<Edge>, x: string, y: string) {
    exists e :: e in edges && Touches(e, x) && OtherEnd(e, x) == y
  }

  ghost predicate LinkPath(edges: seq<Edge>, p: seq<string>) {
    p != [] && forall i :: 0 < i < |p| ==> Linked(edges, p[i - 1], p[i])
  }

  ghost predicate Connected(edges: seq<Edge>, x: string, y: string) {
    exists p :: LinkPath(edges, p) && p[0] == x && p[|p| - 1] == y
  }

  /** A link is an edge from either end to the other. */
  lemma LinkedEitherWay(edges: seq<Edge>, x: string, y: string)
    ensures Linked(edges, x, y) <==>
            exists e :: e in edges && ((e.src == x && e.dst == y) || (e.dst == x && e.src == y))
  {
    if e :| e in edges && ((e.src == x && e.dst == y) || (e.dst == x && e.src == y)) {
      assert e.src == x || OtherEnd(e, x) == y;
      assert Touches(e, x) && (OtherEnd(e, x) == y || (e.src == x && e.dst == x));
    }
  }

  function Backward(p: seq<string>): (r: seq<string>)
    ensures |r| == |p| && forall i :: 0 <= i < |p| ==> r[i] == p[|p| - 1 - i]
  {
    seq(|p|, i requires 0 <= i < |p| => p[|p| - 1 - i])
  }

  /** Being connected goes both ways. */
  lemma ConnectedBack(edges: seq<Edge>, x: string, y: string)
    requires Connected(edges, x, y)
    ensures Connected(edges, y, x)
  {
    var p :| LinkPath(edges, p) && p[0] == x && p[|p| - 1] == y;
    var r := Backward(p);
    forall i | 0 < i < |r| ensures Linked(edges, r[i - 1], r[i]) {
      var j := |p| - i;
      assert Linked(edges, p[j - 1], p[j]);
      LinkedEitherWay(edges, p[j - 1], p[j]);
      LinkedEitherWay(edges, p[j], p[j - 1]);
    }
    assert LinkPath(edges, r) && r[0] == y && r[|r| - 1] == x;
  }

  lemma ConnectedToItself(edges: seq<Edge>, x: string)
    ensures Connected(edges, x, x)
  {
    assert LinkPath(edges, [x]);
  }

  lemma OneMoreLink(edges: seq<Edge>, x: string, y: string, z: string)
    requires Connected(edges, x, y) && Linked(edges, y, z)
    ensures Connected(edges, x, z)
  {
    var p :| LinkPath(edges, p) && p[0] == x && p[|p| - 1] == y;
    assert LinkPath(edges, p + [z]);
  }

  // ---- the walk ----

  /** A lit edge key stands for an edge with both ends lit. */
  ghost predicate KeyLit(edges: seq<Edge>, nodes: set<string>, key: string) {
    exists e :: e in edges && EdgeKey(e) == key && e.src in nodes && e.dst in nodes
  }

  ghost predicate AllKeysLit(edges: seq<Edge>, nodes: set<string>, seen: set<string>) {
    forall key :: key in seen ==> KeyLit(edges, nodes, key)
  }

  /** All edges at `x` among the first `n` are lit, and so are their other ends. */
  ghost predicate LitAround(edges: seq<Edge>, nodes: set<string>, seen: set<string>, x: string, n: nat) {
    forall e :: e in edges[..if n <= |edges| then n else |edges|] && Touches(e, x) ==>
      EdgeKey(e) in seen && OtherEnd(e, x) in nodes
  }

  ghost predicate Done(edges: seq<Edge>, nodes: set<string>, seen: set<string>, queue: seq<string>, x: string) {
    x in nodes && x !in queue ==> LitAround(edges, nodes, seen, x, |edges|)
  }

  ghost predicate AllConnected(edges: seq<Edge>, id: string, nodes: set<string>) {
    forall x :: x in nodes ==> Connected(edges, id, x)
  }

  /** No two edges share a key; so it is when no endpoint id holds the separator. */
  ghost predicate KeysTellEdges(edges: seq<Edge>) {
    forall e, f :: e in edges && f in edges && EdgeKey(e) == EdgeKey(f) ==> e == f
  }

  lemma PlainKeysTellEdges(edges: seq<Edge>)
    requires PlainEdges(edges)
    ensures KeysTellEdges(edges)
  {
    forall e, f | e in edges && f in edges && EdgeKey(e) == EdgeKey(f) ensures e == f {
      EdgeKeyIsFaithful(e, f);
    }
  }

  ghost predicate AllDone(edges: seq<Edge>, nodes: set<string>, seen: set<string>, queue: seq<string>) {
    KeysTellEdges(edges) ==> forall x :: Done(edges, nodes, seen, queue, x)
  }

  /** What is lit so far; `cur`, when given, is the node being looked at. */
  ghost predicate Lighting(edges: seq<Edge>, id: string, nodes: set<string>, seen: set<string>, queue: seq<string>,
                           cur: seq<string>)
  {
    && id in nodes && AllConnected(edges, id, nodes) && AllKeysLit(edges, nodes, seen)
    && (forall x :: x in queue ==> x in nodes)
    && AllDone(edges, nodes, seen, queue + cur)
  }

  lemma LitStays(edges: seq<Edge>, nodes: set<string>, seen: set<string>, more: set<string>, lit: set<string>,
                 x: string, n: nat)
    requires LitAround(edges, nodes, seen, x, n) && nodes <= more && seen <= lit
    ensures LitAround(edges, more, lit, x, n)
  {
  }

  /** Where keys tell edges apart a lit key is the edge itself, so skipping it skips nothing. */
  lemma LitKeyIsLitEdge(edges: seq<Edge>, nodes: set<string>, seen: set<string>, e: Edge, x: string)
    requires KeysTellEdges(edges) && AllKeysLit(edges, nodes, seen)
    requires e in edges && Touches(e, x) && EdgeKey(e) in seen
    ensures OtherEnd(e, x) in nodes
  {
    assert KeyLit(edges, nodes, EdgeKey(e));
    var f :| f in edges && EdgeKey(f) == EdgeKey(e) && f.src in nodes && f.dst in nodes;
    assert f == e;
  }

  lemma LightEdge(edges: seq<Edge>, id: string, nodes: set<string>, seen: set<string>, e: Edge, cur: string)
    requires AllConnected(edges, id, nodes) && AllKeysLit(edges, nodes, seen) && cur in nodes && e in edges &&
             Touches(e, cur)
    ensures AllConnected(edges, id, nodes + {OtherEnd(e, cur)})
    ensures AllKeysLit(edges, nodes + {OtherEnd(e, cur)}, seen + {EdgeKey(e)})
  {
    var next, more := OtherEnd(e, cur), nodes + {OtherEnd(e, cur)};
    assert Linked(edges, cur, next);
    OneMoreLink(edges, id, cur, next);
    forall key | key in seen + {EdgeKey(e)} ensures KeyLit(edges, more, key) {
      if key in seen {
        assert KeyLit(edges, nodes, key);
      } else {
        assert e in edges && EdgeKey(e) == key && e.src in more && e.dst in more;
      }
    }
  }

  lemma AroundNext(edges: seq<Edge>, nodes: set<string>, seen: set<string>, cur: string, i: nat)
    requires i < |edges| && LitAround(edges, nodes, seen, cur, i)
    requires Touches(edges[i], cur) ==> EdgeKey(edges[i]) in seen && OtherEnd(edges[i], cur) in nodes
    ensures LitAround(edges, nodes, seen, cur, i + 1)
  {
    assert edges[..i + 1] == edges[..i] + [edges[i]];
  }

  /** An edge at `cur` that was not lit yet. */
  lemma LightingGrows(edges: seq<Edge>, id: string, nodes: set<string>, seen: set<string>, queue: seq<string>,
                      cur: string, e: Edge, pushed: seq<string>)
    requires Lighting(edges, id, nodes, seen, queue, [cur]) && cur in nodes && e in edges && Touches(e, cur)
    requires pushed == if OtherEnd(e, cur) in nodes then queue else queue + [OtherEnd(e, cur)]
    ensures Lighting(edges, id, nodes + {OtherEnd(e, cur)}, seen + {EdgeKey(e)}, pushed, [cur])
  {
    var more, lit := nodes + {OtherEnd(e, cur)}, seen + {EdgeKey(e)};
    LightEdge(edges, id, nodes, seen, e, cur);
    if KeysTellEdges(edges) {
      forall x ensures Done(edges, more, lit, pushed + [cur], x) {
        assert Done(edges, nodes, seen, queue + [cur], x);
        if x in nodes && x !in queue + [cur] {
          LitStays(edges, nodes, seen, more, lit, x, |edges|);
        }
      }
    }
  }

  /** The edges of the node just taken from the queue. */
  method LookAround(edges: seq<Edge>, ghost id: string, nodes0: set<string>, seen0: set<string>, queue0: seq<string>,
                    cur: string)
    returns (nodes: set<string>, seen: set<string>, queue: seq<string>)
    requires Lighting(edges, id, nodes0, seen0, queue0, [cur]) && cur in nodes0
    ensures Lighting(edges, id, nodes, seen, queue, [cur])
    ensures KeysTellEdges(edges) ==> LitAround(edges, nodes, seen, cur, |edges|)
    ensures nodes0 <= nodes && (nodes == nodes0 ==> queue == queue0)
  {
    nodes, seen, queue := nodes0, seen0, queue0;
    for i := 0 to |edges|
      invariant Lighting(edges, id, nodes, seen, queue, [cur])
      invariant KeysTellEdges(edges) ==> LitAround(edges, nodes, seen, cur, i)
      invariant nodes0 <= nodes && (nodes == nodes0 ==> queue == queue0)
    {
      var e := edges[i];
      var k := EdgeKey(e);
      if k in seen {
        if KeysTellEdges(edges) {
          if Touches(e, cur) {
            LitKeyIsLitEdge(edges, nodes, seen, e, cur);
          }
          AroundNext(edges, nodes, seen, cur, i);
        }
        continue;
      }
      if e.src == cur || e.dst == cur {
        var next := if e.src == cur then e.dst else e.src;
        var pushed := if next in nodes then queue else queue + [next];
        LightingGrows(edges, id, nodes, seen, queue, cur, e, pushed);
        if KeysTellEdges(edges) {
          LitStays(edges, nodes, seen, nodes + {next}, seen + {k}, cur, i);
        }
        assert next in nodes ==> nodes + {next} == nodes;
        nodes, seen, queue := nodes + {next}, seen + {k}, pushed;
      }
      if KeysTellEdges(edges) {
        AroundNext(edges, nodes, seen, cur, i);
      }
    }
  }

  lemma Leave(edges: seq<Edge>, id: string, nodes: set<string>, seen: set<string>, queue: seq<string>, cur: string)
    requires Lighting(edges, id, nodes, seen, queue, [cur])
    requires KeysTellEdges(edges) ==> LitAround(edges, nodes, seen, cur, |edges|)
    ensures Lighting(edges, id, nodes, seen, queue, [])
  {
    assert queue + [] == queue;
    if KeysTellEdges(edges) {
      forall x ensures Done(edges, nodes, seen, queue, x) {
        assert Done(edges, nodes, seen, queue + [cur], x);
      }
    }
  }

  lemma Enter(edges: seq<Edge>, id: string, nodes: set<string>, seen: set<string>, queue: seq<string>)
    requires queue != [] && Lighting(edges, id, nodes, seen, queue, [])
    ensures Lighting(edges, id, nodes, seen, queue[1..], [queue[0]]) && queue[0] in nodes
  {
    assert queue + [] == queue;
    assert forall x :: x in queue <==> x in queue[1..] + [queue[0]];
    if KeysTellEdges(edges) {
      forall x ensures Done(edges, nodes, seen, queue[1..] + [queue[0]], x) {
        assert Done(edges, nodes, seen, queue + [], x);
      }
    }
  }

  lemma {:induction false} LitHoldsConnected(edges: seq<Edge>, id: string, nodes: set<string>, seen: set<string>,
                                             p: seq<string>)
    requires KeysTellEdges(edges) && Lighting(edges, id, nodes, seen, [], [])
    requires LinkPath(edges, p) && p[0] in nodes
    ensures p[|p| - 1] in nodes
  {
    if |p| > 1 {
      assert Linked(edges, p[0], p[1]);
      var e :| e in edges && Touches(e, p[0]) && OtherEnd(e, p[0]) == p[1];
      assert Done(edges, nodes, seen, [] + [], p[0]);
      assert edges[..|edges|] == edges;
      assert LinkPath(edges, p[1..]) by {
        assert forall i :: 1 < i < |p| ==> Linked(edges, p[i - 1], p[i]);
      }
      LitHoldsConnected(edges, id, nodes, seen, p[1..]);
    }
  }

  lemma EdgeOfLitIsLit(edges: seq<Edge>, id: string, nodes: set<string>, seen: set<string>, e: Edge)
    requires KeysTellEdges(edges) && Lighting(edges, id, nodes, seen, [], []) && e in edges && e.src in nodes
    ensures EdgeKey(e) in seen
  {
    assert Done(edges, nodes, seen, [] + [], e.src);
    assert edges[..|edges|] == edges;
  }

  lemma LightingEnds(edges: seq<Edge>, id: string, nodes: set<string>, seen: set<string>)
    requires KeysTellEdges(edges) && Lighting(edges, id, nodes, seen, [], [])
    ensures forall x :: x in nodes <==> Connected(edges, id, x)
    ensures forall key :: key in seen <==> exists e :: e in edges && EdgeKey(e) == key && Connected(edges, id, e.src)
  {
    forall x | Connected(edges, id, x) ensures x in nodes {
      var p :| LinkPath(edges, p) && p[0] == id && p[|p| - 1] == x;
      LitHoldsConnected(edges, id, nodes, seen, p);
    }
    forall e | e in edges && Connected(edges, id, e.src) ensures EdgeKey(e) in seen {
      EdgeOfLitIsLit(edges, id, nodes, seen, e);
    }
    forall key | key in seen ensures exists e :: e in edges && EdgeKey(e) == key && Connected(edges, id, e.src) {
      assert KeyLit(edges, nodes, key);
    }
  }

  function Ends(edges: seq<Edge>): set<string> {
    (set e | e in edges :: e.src) + (set e | e in edges :: e.dst)
  }

  lemma LitAreEnds(edges: seq<Edge>, id: string, nodes: set<string>)
    requires AllConnected(edges, id, nodes)
    ensures nodes <= Ends(edges) + {id}
  {
    forall x | x in nodes ensures x in Ends(edges) + {id} {
      var p :| LinkPath(edges, p) && p[0] == id && p[|p| - 1] == x;
      assert |p| > 1 ==> Linked(edges, p[|p| - 2], p[|p| - 1]);
    }
  }

  lemma LightingStarts(edges: seq<Edge>, id: string)
    ensures Lighting(edges, id, {id}, {}, [id], [])
  {
    ConnectedToItself(edges, id);
    assert [id] + [] == [id];
  }

  /** Lights only what is connected to the selection and keys of edges between lit nodes; where keys tell edges apart
      it lights the whole connected component and the keys of all its edges. Cycles included, it ends. */
  method SpotlightSubtree(id: string, edges: seq<Edge>) returns (nodes: set<string>, seen: set<string>)
    ensures id in nodes && AllConnected(edges, id, nodes) && AllKeysLit(edges, nodes, seen)
    ensures KeysTellEdges(edges) ==> forall x :: x in nodes <==> Connected(edges, id, x)
    ensures KeysTellEdges(edges) ==>
              forall key :: key in seen <==> exists e :: e in edges && EdgeKey(e) == key && Connected(edges, id, e.src)
  {
    nodes, seen := {id}, {};
    var queue := [id];
    LightingStarts(edges, id);
    while queue != []
      invariant Lighting(edges, id, nodes, seen, queue, [])
      decreases Ends(edges) + {id} - nodes, |queue|
    {
      var cur := queue[0];
      ghost var before := nodes;
      Enter(edges, id, nodes, seen, queue);
      nodes, seen, queue := LookAround(edges, id, nodes, seen, queue[1..], cur);
      Leave(edges, id, nodes, seen, queue, cur);
      LitAreEnds(edges, id, nodes);
      assert nodes != before ==> Ends(edges) + {id} - nodes < Ends(edges) + {id} - before;
    }
    if KeysTellEdges(edges) {
      LightingEnds(edges, id, nodes, seen);
    }
  }
}
