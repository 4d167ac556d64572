/**
 The loggable flag of the displayed graph agrees with the pods that log resolution finds:
 build.go's walk up from the authorized pods and filter.go's walk down from a resource.
 */
module Loggable {
  import opened Prelude
  import opened Sorting
  import opened GraphModel
  import opened Ownership
  import D = Descendants

  function NodeID(o: Object): string {
    if o.uid != "" then o.uid else o.kind + "/" + o.ns + "/" + o.name
  }

  function NodeOf(o: Object): D.LogNode {
    D.LogNode(NodeID(o), o.kind, o.ns, o.name, OwnerUIDs(o))
  }

  /** Completed pods stay, objects of no known kind do not. */
  function KeptNodes(objs: seq<Object>): (nodes: seq<D.LogNode>)
    ensures forall n :: n in nodes <==> exists o :: o in objs && InLogGraph(o) && n == NodeOf(o)
  {
    if objs == [] then []
    else
      var o := objs[|objs| - 1];
      assert objs == objs[..|objs| - 1] + [o];
      KeptNodes(objs[..|objs| - 1]) + (if InLogGraph(o) then [NodeOf(o)] else [])
  }

  function NodeKeys(n: D.LogNode): seq<string> {
    [n.kind, n.ns, n.name, n.id]
  }

  /** The nodes of the graph that log resolution builds, by kind, namespace, name and id. */
  function LogNodes(objs: seq<Object>): (nodes: seq<D.LogNode>)
    ensures forall n :: n in nodes <==> exists o :: o in objs && InLogGraph(o) && n == NodeOf(o)
    ensures Ascending(nodes, NodeKeys)
  {
    SortKeepsElements(KeptNodes(objs), NodeKeys);
    SortBy(KeptNodes(objs), NodeKeys)
  }

  /** By kind first, then by namespace, by name and by id. */
  lemma LogNodesInOrder(objs: seq<Object>, i: nat, j: nat)
    requires i < j < |LogNodes(objs)|
    ensures
      var a, b := LogNodes(objs)[i], LogNodes(objs)[j];
      && Below(a.kind, b.kind)
      && (a.kind == b.kind ==> Below(a.ns, b.ns))
      && (a.kind == b.kind && a.ns == b.ns ==> Below(a.name, b.name))
      && (a.kind == b.kind && a.ns == b.ns && a.name == b.name ==> Below(a.id, b.id))
  {
    var a, b := LogNodes(objs)[i], LogNodes(objs)[j];
    assert InKeyOrder(LogNodes(objs), NodeKeys, i, j);
    FourKeys(a.kind, a.ns, a.name, a.id, b.kind, b.ns, b.name, b.id);
  }

  predicate InLogGraph(o: Object) {
    !ExcludedFromBuild(o, true) && o.kind != ""
  }

  /** Two copies of one object agree on what the walks read. */
  ghost predicate SameObject(a: Object, b: Object) {
    a.uid == b.uid && a.uid != "" ==> NodeOf(a) == NodeOf(b) && InLogGraph(a) == InLogGraph(b)
  }

  /** What the API server guarantees: every object has a kind, UIDs hold no slash, and one UID is one object. */
  ghost predicate Coherent(objs: seq<Object>) {
    && (forall o :: o in objs ==> o.kind != "" && '/' !in o.uid)
    && (forall o, y :: o in objs && y in OwnerUIDs(o) ==> '/' !in y)
    && (forall a, b :: a in objs && b in objs ==> SameObject(a, b))
  }

  lemma PlainIDIsUID(objs: seq<Object>, x: string)
    requires Coherent(objs) && '/' !in x
    ensures (exists n :: n in LogNodes(objs) && n.id == x) <==> Live(ByUID(objs), x)
  {
    if n :| n in LogNodes(objs) && n.id == x {
      var o :| o in objs && InLogGraph(o) && n == NodeOf(o);
      PlainUID(o, x);
      assert SameObject(o, ByUID(objs)[x]);
    }
    if Live(ByUID(objs), x) {
      assert NodeOf(ByUID(objs)[x]) in LogNodes(objs);
    }
  }

  lemma PlainUID(o: Object, x: string)
    requires NodeID(o) == x && '/' !in x
    ensures o.uid == x != ""
  {
    var synthetic := o.kind + "/" + o.ns + "/" + o.name;
    assert synthetic[|o.kind|] == '/';
  }

  /** A live node's copy in the graph carries the owners the walk up follows. */
  lemma OwnersAgree(objs: seq<Object>, n: D.LogNode)
    requires Coherent(objs) && n in LogNodes(objs) && '/' !in n.id
    ensures n.id in ByUID(objs) && n.ownerUIDs == OwnerUIDs(ByUID(objs)[n.id])
  {
    var o :| o in objs && InLogGraph(o) && n == NodeOf(o);
    PlainUID(o, n.id);
    assert SameObject(o, ByUID(objs)[n.id]);
  }

  lemma OwnersArePlain(objs: seq<Object>, n: D.LogNode, y: string)
    requires Coherent(objs) && n in LogNodes(objs) && y in n.ownerUIDs
    ensures '/' !in y
  {
    var o :| o in objs && InLogGraph(o) && n == NodeOf(o);
    assert y in OwnerUIDs(o);
  }

  /** One step up is one owner edge down, the other way round. */
  lemma StepsAgree(objs: seq<Object>, edges: seq<Edge>, x: string, y: string)
    requires Coherent(objs) && D.OwnerEdgesOf(edges, LogNodes(objs)) && '/' !in x
    ensures UpStep(ByUID(objs), x, y) <==> D.Down(edges, y, x)
    ensures D.Down(edges, y, x) ==> '/' !in y
  {
    var nodes, e := LogNodes(objs), Edge(y, x, D.OwnerReference);
    assert D.Down(edges, y, x) <==> D.IsOwnerEdge(nodes, e);
    PlainIDIsUID(objs, x);
    if UpStep(ByUID(objs), x, y) {
      assert y in OwnerUIDs(ByUID(objs)[x]);
      PlainIDIsUID(objs, y);
      var n :| n in nodes && n.id == x;
      OwnersAgree(objs, n);
    }
    if D.IsOwnerEdge(nodes, e) {
      var n :| n in nodes && n.id == x && y in n.ownerUIDs;
      OwnersAgree(objs, n);
      OwnersArePlain(objs, n, y);
      PlainIDIsUID(objs, y);
    }
  }

  function Reversed(p: seq<string>): (r: seq<string>)
    ensures |r| == |p| && forall i :: 0 <= i < |p| ==> r[i] == p[|p| - 1 - i]
  {
    seq(|p|, i requires 0 <= i < |p| => p[|p| - 1 - i])
  }

  lemma UpReversed(objs: seq<Object>, edges: seq<Edge>, p: seq<string>)
    requires Coherent(objs) && D.OwnerEdgesOf(edges, LogNodes(objs)) && UpPath(ByUID(objs), p)
    ensures D.DownPath(edges, Reversed(p))
  {
    var r := Reversed(p);
    forall i | 0 < i < |r| ensures D.Down(edges, r[i - 1], r[i]) {
      var j := |p| - i;
      assert UpStep(ByUID(objs), p[j - 1], p[j]);
      StepsAgree(objs, edges, p[j - 1], p[j]);
    }
  }

  lemma {:induction false} DownIsPlain(objs: seq<Object>, edges: seq<Edge>, q: seq<string>, k: nat)
    requires Coherent(objs) && D.OwnerEdgesOf(edges, LogNodes(objs)) && D.DownPath(edges, q) && k < |q|
    requires '/' !in q[|q| - 1]
    ensures '/' !in q[k]
    decreases |q| - k
  {
    if k < |q| - 1 {
      DownIsPlain(objs, edges, q, k + 1);
      assert D.Down(edges, q[k], q[k + 1]);
      StepsAgree(objs, edges, q[k + 1], q[k]);
    }
  }

  lemma DownReversed(objs: seq<Object>, edges: seq<Edge>, q: seq<string>)
    requires Coherent(objs) && D.OwnerEdgesOf(edges, LogNodes(objs)) && D.DownPath(edges, q)
    requires '/' !in q[|q| - 1] && q[0] in D.LogIDs(LogNodes(objs))
    ensures UpPath(ByUID(objs), Reversed(q))
  {
    var r := Reversed(q);
    forall i | 0 < i < |r| ensures UpStep(ByUID(objs), r[i - 1], r[i]) {
      var j := |q| - i;
      assert D.Down(edges, q[j - 1], q[j]);
      DownIsPlain(objs, edges, q, j);
      StepsAgree(objs, edges, q[j], q[j - 1]);
    }
    DownIsPlain(objs, edges, q, 0);
    PlainIDIsUID(objs, q[0]);
    assert |q| > 1 ==> UpStep(ByUID(objs), r[0], r[1]);
  }

  /** `u` is a node of the log graph and an authorized pod is at or below it. */
  ghost predicate HasSourceBelow(objs: seq<Object>, edges: seq<Edge>, sources: set<string>, u: string) {
    u in D.LogIDs(LogNodes(objs)) && exists s :: s in sources && D.Reaches(edges, u, s)
  }

  lemma SourcesArePlain(objs: seq<Object>, sourcePods: seq<Object>, s: string)
    requires Coherent(objs + sourcePods) && s in SourceUIDs(sourcePods)
    ensures '/' !in s
  {
    var o :| o in sourcePods && o.kind == "Pod" && o.uid == s;
    assert o in objs + sourcePods;
  }

  lemma SeenHasSourceBelow(objs: seq<Object>, edges: seq<Edge>, sources: set<string>, u: string)
    requires Coherent(objs) && D.OwnerEdgesOf(edges, LogNodes(objs)) && SeenFrom(ByUID(objs), sources, u)
    ensures HasSourceBelow(objs, edges, sources, u)
  {
    var p :| UpPath(ByUID(objs), p) && p[0] in sources && p[|p| - 1] == u;
    UpReversed(objs, edges, p);
    assert D.Reaches(edges, u, p[0]);
    assert |p| > 1 ==> UpStep(ByUID(objs), p[|p| - 2], p[|p| - 1]);
    PlainIDIsUID(objs, u);
  }

  lemma SourceBelowIsSeen(objs: seq<Object>, edges: seq<Edge>, sources: set<string>, u: string)
    requires Coherent(objs) && D.OwnerEdgesOf(edges, LogNodes(objs)) && HasSourceBelow(objs, edges, sources, u)
    requires forall s :: s in sources ==> '/' !in s
    ensures SeenFrom(ByUID(objs), sources, u)
  {
    var s :| s in sources && D.Reaches(edges, u, s);
    var q :| D.DownPath(edges, q) && q[0] == u && q[|q| - 1] == s;
    DownReversed(objs, edges, q);
    assert UpPath(ByUID(objs), Reversed(q)) && Reversed(q)[0] == s && Reversed(q)[|q| - 1] == u;
  }

  /** The walk up marks a node exactly when the walk down from it ends in an authorized pod. */
  lemma LoggableIffResolvable(objs: seq<Object>, sourcePods: seq<Object>, edges: seq<Edge>, u: string)
    requires Coherent(objs + sourcePods) && D.OwnerEdgesOf(edges, LogNodes(objs + sourcePods))
    ensures SeenFrom(ByUID(objs + sourcePods), SourceUIDs(sourcePods), u)
       <==> HasSourceBelow(objs + sourcePods, edges, SourceUIDs(sourcePods), u)
  {
    var all, sources := objs + sourcePods, SourceUIDs(sourcePods);
    forall s | s in sources ensures '/' !in s {
      SourcesArePlain(objs, sourcePods, s);
    }
    if SeenFrom(ByUID(all), sources, u) {
      SeenHasSourceBelow(all, edges, sources, u);
    } else if HasSourceBelow(all, edges, sources, u) {
      SourceBelowIsSeen(all, edges, sources, u);
    }
  }

  lemma ReachedIsNode(objs: seq<Object>, edges: seq<Edge>, u: string, s: string)
    requires D.OwnerEdgesOf(edges, LogNodes(objs)) && u in D.LogIDs(LogNodes(objs)) && D.Reaches(edges, u, s)
    ensures s in D.LogNodeByID(LogNodes(objs))
  {
    var q :| D.DownPath(edges, q) && q[0] == u && q[|q| - 1] == s;
    if |q| > 1 {
      assert D.Down(edges, q[|q| - 2], s);
      assert D.IsOwnerEdge(LogNodes(objs), Edge(q[|q| - 2], s, D.OwnerReference));
    }
  }

  // ---- the pods whose logs represent a resource ----

  predicate Matches(n: D.LogNode, kind: string, name: string) {
    n.kind == kind && n.name == name
  }

  /** Among the nodes of a kind and name, the first by namespace and then id. */
  ghost predicate IsFirst(nodes: seq<D.LogNode>, kind: string, name: string, n: D.LogNode) {
    && n in nodes && Matches(n, kind, name)
    && forall m :: m in nodes && Matches(m, kind, name) ==> KeysBelow([n.ns, n.id], [m.ns, m.id])
  }

  /** The id that a kind and name stand for. */
  ghost predicate Picked(nodes: seq<D.LogNode>, kind: string, name: string, id: string) {
    exists n :: IsFirst(nodes, kind, name, n) && n.id == id
  }

  lemma OneIsPicked(nodes: seq<D.LogNode>, kind: string, name: string, x: string, y: string)
    requires Picked(nodes, kind, name, x) && Picked(nodes, kind, name, y)
    ensures x == y
  {
    var n :| IsFirst(nodes, kind, name, n) && n.id == x;
    var m :| IsFirst(nodes, kind, name, m) && m.id == y;
    FirstKeyDecides(n.ns, n.id, m.ns, m.id);
    FirstKeyDecides(m.ns, m.id, n.ns, n.id);
    if n.ns == m.ns {
      BelowIsAntisymmetric(x, y);
    } else {
      BelowIsAntisymmetric(n.ns, m.ns);
    }
  }

  lemma FirstKeyDecides(a: string, x: string, b: string, y: string)
    ensures KeysBelow([a, x], [b, y]) <==> if a == b then Below(x, y) else Below(a, b)
  {
    assert [a, x][1..] == [x] && [b, y][1..] == [y];
    BelowIsTotal(x, x);
    assert KeysBelow([x], [y]) <==> Below(x, y);
  }

  lemma SharedKeysDropOut(n: D.LogNode, m: D.LogNode)
    requires n.kind == m.kind && n.name == m.name && KeysBelow(NodeKeys(n), NodeKeys(m))
    ensures KeysBelow([n.ns, n.id], [m.ns, m.id])
  {
    assert NodeKeys(n)[1..] == [n.ns, n.name, n.id] && NodeKeys(m)[1..] == [m.ns, m.name, m.id];
    assert [n.ns, n.name, n.id][1..] == [n.name, n.id] && [m.ns, m.name, m.id][1..] == [m.name, m.id];
    assert [n.name, n.id][1..] == [n.id] && [m.name, m.id][1..] == [m.id];
    assert KeysBelow([n.ns, n.name, n.id], [m.ns, m.name, m.id]);
    assert KeysBelow([n.name, n.id], [m.name, m.id]) <==> KeysBelow([n.id], [m.id]);
    assert [n.ns, n.id][1..] == [n.id] && [m.ns, m.id][1..] == [m.id];
  }

  lemma FirstMatchIsFirst(nodes: seq<D.LogNode>, kind: string, name: string, i: nat)
    requires Ascending(nodes, NodeKeys) && i < |nodes| && Matches(nodes[i], kind, name)
    requires forall j :: 0 <= j < i ==> !Matches(nodes[j], kind, name)
    ensures Picked(nodes, kind, name, nodes[i].id)
  {
    var n := nodes[i];
    forall m | m in nodes && Matches(m, kind, name) ensures KeysBelow([n.ns, n.id], [m.ns, m.id]) {
      var j :| 0 <= j < |nodes| && nodes[j] == m;
      if j == i {
        KeysAreTotal([n.ns, n.id], [n.ns, n.id]);
      } else {
        assert InKeyOrder(nodes, NodeKeys, i, j);
        SharedKeysDropOut(n, m);
      }
    }
    assert IsFirst(nodes, kind, name, n);
  }

  method FindNode(nodes: seq<D.LogNode>, kind: string, name: string) returns (id: Option<string>)
    requires Ascending(nodes, NodeKeys)
    ensures id.None? <==> forall n :: n in nodes ==> !Matches(n, kind, name)
    ensures id.Some? ==> Picked(nodes, kind, name, id.value)
  {
    for i := 0 to |nodes|
      invariant forall j :: 0 <= j < i ==> !Matches(nodes[j], kind, name)
    {
      if Matches(nodes[i], kind, name) {
        FirstMatchIsFirst(nodes, kind, name, i);
        return Some(nodes[i].id);
      }
    }
    return None;
  }

  ghost predicate IsWanted(nodes: seq<D.LogNode>, edges: seq<Edge>, id: string, o: Object) {
    o.body.PodBody? && D.PodBelow(nodes, edges, id, D.PodIdentity(o.ns, o.name))
  }

  /** The node that a kind and name stand for, and the pods at or below it. */
  ghost predicate Resolves(objs: seq<Object>, edges: seq<Edge>, kind: string, name: string,
                           root: Option<string>, pods: seq<Object>)
  {
    match root
    case None => pods == [] && forall n :: n in LogNodes(objs) ==> !Matches(n, kind, name)
    case Some(id) =>
      && Picked(LogNodes(objs), kind, name, id)
      && forall o :: o in pods <==> o in objs && IsWanted(LogNodes(objs), edges, id, o)
  }

  /** Tells a missing resource apart from one that has no pods right now. */
  method PodsForResource(objs: seq<Object>, edges: seq<Edge>, kind: string, name: string)
    returns (root: Option<string>, pods: seq<Object>)
    requires D.OwnerEdgesOf(edges, LogNodes(objs))
    ensures Resolves(objs, edges, kind, name, root, pods)
  {
    pods := [];
    root := FindNode(LogNodes(objs), kind, name);
    if root.None? {
      return;
    }
    var want := D.DescendantPods(LogNodes(objs), edges, root.value);
    for i := 0 to |objs|
      invariant forall o :: o in pods <==> o in objs[..i] && IsWanted(LogNodes(objs), edges, root.value, o)
    {
      assert objs[..i + 1] == objs[..i] + [objs[i]];
      if objs[i].body.PodBody? && D.PodIdentity(objs[i].ns, objs[i].name) in want {
        pods := pods + [objs[i]];
      }
    }
    assert objs[..|objs|] == objs;
  }

  // ---- what the loggable flag promises ----

  predicate SamePod(a: Object, b: Object) {
    a.kind == b.kind == "Pod" && a.ns == b.ns && a.name == b.name ==> a.uid == b.uid
  }

  /** What the API server guarantees of pods: they are typed, carry a UID, and a namespace and name are one pod. */
  ghost predicate PodsAreNamed(objs: seq<Object>) {
    && (forall o :: o in objs ==> (o.body.PodBody? <==> o.kind == "Pod") && (o.kind == "Pod" ==> o.uid != ""))
    && (forall a, b :: a in objs && b in objs ==> SamePod(a, b))
  }

  /** The pod reached from a node under the identity of `o` is `o`. */
  lemma WantedIsReached(objs: seq<Object>, edges: seq<Edge>, u: string, o: Object)
    requires PodsAreNamed(objs) && o in objs && IsWanted(LogNodes(objs), edges, u, o)
    ensures o.kind == "Pod" && o.uid != "" && D.Reaches(edges, u, o.uid)
  {
    var nodes := LogNodes(objs);
    var d :| D.Reaches(edges, u, d) && D.IsPod(nodes, d, D.PodIdentity(o.ns, o.name));
    var c :| c in objs && InLogGraph(c) && D.LogNodeByID(nodes)[d] == NodeOf(c);
    assert SamePod(c, o);
  }

  lemma ReachedIsWanted(objs: seq<Object>, edges: seq<Edge>, u: string, o: Object)
    requires Coherent(objs) && PodsAreNamed(objs) && D.OwnerEdgesOf(edges, LogNodes(objs))
    requires o in objs && o.kind == "Pod" && u in D.LogIDs(LogNodes(objs)) && D.Reaches(edges, u, o.uid)
    ensures IsWanted(LogNodes(objs), edges, u, o)
  {
    var nodes := LogNodes(objs);
    ReachedIsNode(objs, edges, u, o.uid);
    var c :| c in objs && InLogGraph(c) && D.LogNodeByID(nodes)[o.uid] == NodeOf(c);
    PlainUID(c, o.uid);
    assert SameObject(c, o);
    assert D.IsPod(nodes, o.uid, D.PodIdentity(o.ns, o.name));
  }

  /** An authorized pod is found from a node exactly when the node is marked. */
  lemma AuthorizedIsWantedIff(objs: seq<Object>, sourcePods: seq<Object>, edges: seq<Edge>, u: string)
    requires Coherent(objs + sourcePods) && PodsAreNamed(objs + sourcePods)
    requires D.OwnerEdgesOf(edges, LogNodes(objs + sourcePods)) && u in D.LogIDs(LogNodes(objs + sourcePods))
    ensures SeenFrom(ByUID(objs + sourcePods), SourceUIDs(sourcePods), u)
       <==> exists o :: o in sourcePods && IsWanted(LogNodes(objs + sourcePods), edges, u, o)
  {
    var all := objs + sourcePods;
    LoggableIffResolvable(objs, sourcePods, edges, u);
    if SeenFrom(ByUID(all), SourceUIDs(sourcePods), u) {
      var s :| s in SourceUIDs(sourcePods) && D.Reaches(edges, u, s);
      var o :| o in sourcePods && o.kind == "Pod" && o.uid == s;
      assert o in all;
      ReachedIsWanted(all, edges, u, o);
    }
    if o :| o in sourcePods && IsWanted(LogNodes(all), edges, u, o) {
      assert o in all;
      WantedIsReached(all, edges, u, o);
      assert o.uid in SourceUIDs(sourcePods);
    }
  }

  /** What a loggable flag promises: resolving logs by kind and name finds an authorized pod exactly when the node
      that the kind and name stand for is marked. */
  lemma LoggableResolvesToAPod(objs: seq<Object>, sourcePods: seq<Object>, edges: seq<Edge>, kind: string,
                               name: string, u: string, pods: seq<Object>)
    requires Coherent(objs + sourcePods) && PodsAreNamed(objs + sourcePods)
    requires D.OwnerEdgesOf(edges, LogNodes(objs + sourcePods))
    requires Resolves(objs + sourcePods, edges, kind, name, Some(u), pods)
    ensures SeenFrom(ByUID(objs + sourcePods), SourceUIDs(sourcePods), u)
       <==> exists o :: o in sourcePods && o in pods
  {
    var all := objs + sourcePods;
    AuthorizedIsWantedIff(objs, sourcePods, edges, u);
    if o :| o in sourcePods && IsWanted(LogNodes(all), edges, u, o) {
      assert o in all;
      assert o in pods;
    }
  }

  /** A node that is the only one of its kind and name is the one they stand for. */
  lemma OnlyOneIsPicked(objs: seq<Object>, edges: seq<Edge>, kind: string, name: string, u: string,
                        root: Option<string>, pods: seq<Object>)
    requires Resolves(objs, edges, kind, name, root, pods)
    requires exists n :: n in LogNodes(objs) && Matches(n, kind, name)
    requires forall n :: n in LogNodes(objs) && Matches(n, kind, name) ==> n.id == u
    ensures root == Some(u)
  {
  }

  // ---- which objects are nodes, on the fields ----

  /** A node of the log graph stands for the object. */
  ghost predicate HasNode(objs: seq<Object>, o: Object) {
    exists n :: n in LogNodes(objs) && n.id == o.uid && n.kind == o.kind && n.ns == o.ns && n.name == o.name
  }

  /** A ReplicaSet is left out when it is controlled, wants no replicas and has none; a ConfigMap when it is the
      root certificate; pods, finished ones included, and all else stay. */
  lemma NodeOnFields(objs: seq<Object>, o: Object)
    requires Coherent(objs) && o in objs && o.uid != ""
    ensures HasNode(objs, o) <==>
            match o.body
            case ReplicaSetBody(wanted, actual) =>
              wanted != Some(0) || actual != 0 || forall i :: 0 <= i < |o.owners| ==> !o.owners[i].controller
            case ConfigMapBody => o.name != "kube-root-ca.crt"
            case _ => true
  {
    if n :| n in LogNodes(objs) && n.id == o.uid {
      var c :| c in objs && InLogGraph(c) && n == NodeOf(c);
      PlainUID(c, o.uid);
      assert SameObject(c, o);
    }
    if InLogGraph(o) {
      assert NodeOf(o) in LogNodes(objs);
    }
  }

  /** Without a UID an object is told by its kind, namespace and name: kinds and namespaces hold no slash. */
  lemma SyntheticIDIsFaithful(a: Object, b: Object)
    requires a.uid == "" && b.uid == ""
    requires '/' !in a.kind && '/' !in b.kind && '/' !in a.ns && '/' !in b.ns
    ensures NodeOf(a).id == NodeOf(b).id <==> a.kind == b.kind && a.ns == b.ns && a.name == b.name
  {
    var x, y := a.ns + ['/'] + a.name, b.ns + ['/'] + b.name;
    assert NodeOf(a).id == a.kind + ['/'] + x && NodeOf(b).id == b.kind + ['/'] + y;
    if NodeOf(a).id == NodeOf(b).id {
      SplitAtSeparator(a.kind, b.kind, '/', x, y);
      SplitAtSeparator(a.ns, b.ns, '/', a.name, b.name);
    }
  }

  /** No node is without a kind. */
  lemma NodesHaveKinds(objs: seq<Object>, n: D.LogNode)
    requires n in LogNodes(objs)
    ensures n.kind != ""
  {
  }

  /** A Deployment, its ReplicaSet and an authorized pod of that. */
  datatype Chain = Chain(top: Object, rs: Object, pod: Object, controlled: bool, wanted: Option<int>, actual: int) {
    ghost predicate Linked() {
      && top.uid != "" && rs.uid != "" && pod.uid != ""
      && top.uid != rs.uid && top.uid != pod.uid && rs.uid != pod.uid
      && top.body == OtherBody && top.owners == []
      && rs.body == ReplicaSetBody(wanted, actual) && rs.owners == [Owner(top.uid, controlled)]
      && pod.kind == "Pod" && pod.body.PodBody? && pod.owners == [Owner(rs.uid, true)]
    }

    function All(): seq<Object> {
      [top, rs] + [pod]
    }
  }

  lemma ChainByUID(c: Chain)
    requires c.Linked()
    ensures
      var byUID := ByUID(c.All());
      && c.top.uid in byUID && byUID[c.top.uid] == c.top
      && c.rs.uid in byUID && byUID[c.rs.uid] == c.rs
      && c.pod.uid in byUID && byUID[c.pod.uid] == c.pod
  {
    var all := c.All();
    assert all == [c.top, c.rs, c.pod];
    assert all[0] in all && all[1] in all && all[2] in all;
  }

  lemma ChainSources(c: Chain)
    requires c.Linked()
    ensures SourceUIDs([c.pod]) == {c.pod.uid}
  {
    assert c.pod in [c.pod];
  }

  lemma ChainGoesUp(c: Chain)
    requires c.Linked() && !(c.controlled && c.wanted == Some(0) && c.actual == 0)
    ensures UpPath(ByUID(c.All()), [c.pod.uid, c.rs.uid, c.top.uid])
  {
    var byUID, p := ByUID(c.All()), [c.pod.uid, c.rs.uid, c.top.uid];
    ChainByUID(c);
    assert OwnerUIDs(c.pod)[0] == c.rs.uid && OwnerUIDs(c.rs)[0] == c.top.uid;
    assert Live(byUID, c.pod.uid) && Live(byUID, c.rs.uid) && Live(byUID, c.top.uid);
    assert UpStep(byUID, c.pod.uid, c.rs.uid) && UpStep(byUID, c.rs.uid, c.top.uid);
  }

  lemma ChainIsCut(c: Chain, p: seq<string>)
    requires c.Linked() && c.controlled && c.wanted == Some(0) && c.actual == 0
    requires UpPath(ByUID(c.All()), p) && p[0] == c.pod.uid
    ensures p[|p| - 1] != c.top.uid
  {
    var byUID := ByUID(c.All());
    var next := if |p| > 1 then p[1] else p[0];
    assert |p| > 1 ==> UpStep(byUID, p[0], next);
    NoStepFromPod(c);
  }

  lemma NoStepFromPod(c: Chain)
    requires c.Linked() && c.controlled && c.wanted == Some(0) && c.actual == 0
    ensures forall y :: !UpStep(ByUID(c.All()), c.pod.uid, y)
  {
    ChainByUID(c);
    assert c.rs.owners[0].controller;
    assert !Live(ByUID(c.All()), c.rs.uid);
  }

  /** The Deployment has logs exactly unless its ReplicaSet is controlled, wants no replicas and has none. */
  lemma ChainIsMarked(c: Chain)
    requires c.Linked()
    ensures SeenFrom(ByUID(c.All()), SourceUIDs([c.pod]), c.top.uid)
       <==> !(c.controlled && c.wanted == Some(0) && c.actual == 0)
  {
    ChainSources(c);
    if !(c.controlled && c.wanted == Some(0) && c.actual == 0) {
      ChainGoesUp(c);
      var p := [c.pod.uid, c.rs.uid, c.top.uid];
      assert p[0] in SourceUIDs([c.pod]) && p[|p| - 1] == c.top.uid;
    } else {
      forall p | UpPath(ByUID(c.All()), p) && p[0] == c.pod.uid ensures p[|p| - 1] != c.top.uid {
        ChainIsCut(c, p);
      }
    }
  }

  // ---- two kinds of one name ----

  /** Two resources of different groups share kind, namespace and name, and the second owns a pod. */
  datatype Collision = Collision(first: string, second: string, pod: string, kind: string, ns: string, name: string) {
    ghost predicate Possible() {
      && first != "" && second != "" && pod != "" && first != second && pod != first && pod != second
      && '/' !in first && '/' !in second && '/' !in pod
      && Below(first, second) && kind != "" && kind != "Pod"
    }

    function First(): Object {
      Object(first, kind, ns, name, [], OtherBody)
    }

    function Second(): Object {
      Object(second, kind, ns, name, [], OtherBody)
    }

    function Backend(): Object {
      Object(pod, "Pod", ns, name, [Owner(second, true)], PodBody(false))
    }

    function All(): seq<Object> {
      [First(), Second()] + [Backend()]
    }
  }

  lemma CollidingObject(c: Collision, o: Object)
    ensures o in c.All() <==> o == c.First() || o == c.Second() || o == c.Backend()
  {
    assert c.All() == [c.First(), c.Second(), c.Backend()];
    assert c.All()[0] in c.All() && c.All()[1] in c.All() && c.All()[2] in c.All();
  }

  lemma CollisionIsCoherent(c: Collision)
    requires c.Possible()
    ensures Coherent(c.All()) && PodsAreNamed(c.All())
  {
  }

  lemma CollisionHasFirst(c: Collision)
    requires c.Possible()
    ensures NodeOf(c.First()) in LogNodes(c.All())
  {
    CollidingObject(c, c.First());
    assert InLogGraph(c.First());
  }

  lemma CollidingNode(c: Collision, n: D.LogNode)
    requires c.Possible() && n in LogNodes(c.All()) && n.kind == c.kind
    ensures n == NodeOf(c.First()) || n == NodeOf(c.Second())
  {
    var o :| o in c.All() && InLogGraph(o) && n == NodeOf(o);
    CollidingObject(c, o);
  }

  lemma CollisionPicksFirst(c: Collision, edges: seq<Edge>, root: Option<string>, pods: seq<Object>)
    requires c.Possible() && Resolves(c.All(), edges, c.kind, c.name, root, pods)
    ensures root == Some(c.first)
  {
    var a, b := NodeOf(c.First()), NodeOf(c.Second());
    CollisionHasFirst(c);
    var n :| IsFirst(LogNodes(c.All()), c.kind, c.name, n) && n.id == root.value;
    CollidingNode(c, n);
    if n == b {
      FirstKeyDecides(b.ns, b.id, a.ns, a.id);
      BelowIsAntisymmetric(c.first, c.second);
    }
  }

  lemma CollisionByUID(c: Collision)
    requires c.Possible()
    ensures
      var byUID := ByUID(c.All());
      && c.first in byUID && byUID[c.first] == c.First()
      && c.second in byUID && byUID[c.second] == c.Second()
      && c.pod in byUID && byUID[c.pod] == c.Backend()
  {
    CollidingObject(c, c.First());
    CollidingObject(c, c.Second());
    CollidingObject(c, c.Backend());
    var byUID := ByUID(c.All());
    CollidingObject(c, byUID[c.first]);
    CollidingObject(c, byUID[c.second]);
    CollidingObject(c, byUID[c.pod]);
  }

  lemma CollisionMarksSecond(c: Collision)
    requires c.Possible()
    ensures SeenFrom(ByUID(c.All()), SourceUIDs([c.Backend()]), c.second)
  {
    var byUID, sources := ByUID(c.All()), SourceUIDs([c.Backend()]);
    CollisionByUID(c);
    assert OwnerUIDs(c.Backend())[0] == c.second;
    assert UpPath(byUID, [c.pod, c.second]);
    assert c.Backend() in [c.Backend()] && c.pod in sources;
  }

  lemma NoPathToFirst(c: Collision, p: seq<string>)
    requires c.Possible() && UpPath(ByUID(c.All()), p) && p[0] == c.pod
    ensures p[|p| - 1] != c.first
  {
    if |p| > 1 {
      var byUID, x := ByUID(c.All()), p[|p| - 2];
      assert UpStep(byUID, x, p[|p| - 1]);
      CollidingObject(c, byUID[x]);
    }
  }

  lemma FirstIsNotMarked(c: Collision)
    requires c.Possible()
    ensures !SeenFrom(ByUID(c.All()), SourceUIDs([c.Backend()]), c.first)
  {
    forall p | UpPath(ByUID(c.All()), p) && p[0] == c.pod ensures p[|p| - 1] != c.first {
      NoPathToFirst(c, p);
    }
    assert SourceUIDs([c.Backend()]) == {c.pod};
  }

  lemma OnlyPodIsBackend(c: Collision, edges: seq<Edge>, pods: seq<Object>)
    requires Resolves(c.All(), edges, c.kind, c.name, Some(c.first), pods) && c.Backend() !in pods
    ensures pods == []
  {
    forall o ensures o !in pods {
      CollidingObject(c, o);
    }
    NoElements(pods);
  }

  /** A shared name hides pods: the second resource is marked, the first is picked, and no pod is found. */
  lemma SharedNameHidesPods(c: Collision, edges: seq<Edge>, root: Option<string>, pods: seq<Object>)
    requires c.Possible() && D.OwnerEdgesOf(edges, LogNodes(c.All()))
    requires Resolves(c.All(), edges, c.kind, c.name, root, pods)
    ensures Coherent(c.All()) && PodsAreNamed(c.All())
    ensures SeenFrom(ByUID(c.All()), SourceUIDs([c.Backend()]), c.second)
    ensures root == Some(c.first) && pods == []
  {
    CollisionIsCoherent(c);
    CollisionPicksFirst(c, edges, root, pods);
    CollisionMarksSecond(c);
    FirstIsNotMarked(c);
    LoggableResolvesToAPod([c.First(), c.Second()], [c.Backend()], edges, c.kind, c.name, c.first, pods);
    assert c.Backend() in [c.Backend()];
    OnlyPodIsBackend(c, edges, pods);
  }
}
