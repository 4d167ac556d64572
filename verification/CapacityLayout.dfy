/** web/src/capacityLayout.ts, layoutGraphByCapacity: pods grouped into one row a node, and one scale for all rows. */
module CapacityLayout {
  import opened Prelude
  import opened Sorting
  import opened CapacityBar

  const CAP_TRACK_MAX: real := 1080.0
  const ORPHAN := "__orphan__"

  /** What the layout reads of a graph node, for the active resource. */
  datatype KNode = KNode(id: string, kind: string, ns: string, name: string, host: string,
                         capacity: Option<real>, allocatable: Option<real>, request: Option<real>)

  function NodeNames(nodes: seq<KNode>): set<string> {
    set n | n in nodes && n.kind == "Node" :: n.name
  }

  function HostKey(names: set<string>, p: KNode): string {
    if p.host != "" && p.host in names then p.host else ORPHAN
  }

  predicate IsPod(n: KNode) {
    n.kind == "Pod"
  }

  function RunsOn(names: set<string>, host: string): KNode -> bool {
    (p: KNode) => p.kind == "Pod" && HostKey(names, p) == host
  }

  function PodsOn(nodes: seq<KNode>, names: set<string>, host: string): seq<KNode> {
    Pick(nodes, RunsOn(names, host))
  }

  // ---- grouping ----

  /** The pods of each host that has any, in the order of the graph. */
  ghost predicate Grouped(nodes: seq<KNode>, names: set<string>, byHost: map<string, seq<KNode>>) {
    forall h :: GroupedAt(nodes, names, byHost, h)
  }

  predicate GroupedAt(nodes: seq<KNode>, names: set<string>, byHost: map<string, seq<KNode>>, h: string) {
    PodsFor(byHost, h) == PodsOn(nodes, names, h) && (h in byHost ==> byHost[h] != [])
  }

  function PodsFor(byHost: map<string, seq<KNode>>, host: string): seq<KNode> {
    if host in byHost then byHost[host] else []
  }

  lemma GroupOne(nodes: seq<KNode>, n: KNode, names: set<string>, before: map<string, seq<KNode>>,
                 after: map<string, seq<KNode>>)
    requires Grouped(nodes, names, before)
    requires after == if n.kind != "Pod" then before
                      else before[HostKey(names, n) := PodsFor(before, HostKey(names, n)) + [n]]
    ensures Grouped(nodes + [n], names, after)
  {
    forall h ensures GroupedAt(nodes + [n], names, after, h) {
      PickPush(nodes, n, RunsOn(names, h));
      assert GroupedAt(nodes, names, before, h);
    }
  }

  method PodsByHost(nodes: seq<KNode>, names: set<string>) returns (byHost: map<string, seq<KNode>>)
    ensures Grouped(nodes, names, byHost)
  {
    byHost := map[];
    for i := 0 to |nodes|
      invariant Grouped(nodes[..i], names, byHost)
    {
      var n := nodes[i];
      ghost var before := byHost;
      if n.kind == "Pod" {
        var key := HostKey(names, n);
        byHost := byHost[key := PodsFor(byHost, key) + [n]];
      }
      assert nodes[..i + 1] == nodes[..i] + [n];
      GroupOne(nodes[..i], n, names, before, byHost);
    }
    assert nodes[..|nodes|] == nodes;
  }

  /** The rows: every node once, in some order, and the pods without one last. */
  ghost predicate AreRows(nodes: seq<KNode>, hosts: seq<string>) {
    exists order :: RowsFrom(nodes, order, hosts)
  }

  ghost predicate RowsFrom(nodes: seq<KNode>, order: seq<string>, hosts: seq<string>) {
    var names := NodeNames(nodes);
    && Distinct(order) && (forall h :: h in order <==> h in names)
    && hosts == order + if PodsOn(nodes, names, ORPHAN) != [] then [ORPHAN] else []
  }

  /** A node runs pods of the namespace in view; None in cluster scope, where all are alike. */
  predicate HostHasOwn(nodes: seq<KNode>, view: Option<string>, host: string) {
    view.Some? && exists p :: p in PodsOn(nodes, NodeNames(nodes), host) && p.ns == view.value
  }

  /** Nodes that run pods of the namespace come first, then names as the locale orders them. */
  function RowKeys(nodes: seq<KNode>, view: Option<string>, collate: string -> string): string -> seq<string> {
    (h: string) => [if HostHasOwn(nodes, view, h) then [] else ['1'], collate(h)]
  }

  /** The keys of nodeByName, in the order of their first insertion. */
  method NodesByName(nodes: seq<KNode>) returns (names: seq<string>)
    ensures Distinct(names) && forall h :: h in names <==> h in NodeNames(nodes)
  {
    names := [];
    for i := 0 to |nodes|
      invariant Distinct(names) && forall h :: h in names <==> h in NodeNames(nodes[..i])
    {
      assert nodes[..i + 1] == nodes[..i] + [nodes[i]];
      if nodes[i].kind == "Node" && nodes[i].name !in names {
        DistinctPush(names, nodes[i].name);
        names := names + [nodes[i].name];
      }
    }
    assert nodes[..|nodes|] == nodes;
  }

  lemma DistinctPush(hosts: seq<string>, h: string)
    requires Distinct(hosts) && h !in hosts
    ensures Distinct(hosts + [h])
  {
    assert forall i :: 0 <= i < |hosts| ==> hosts[i] in hosts;
  }

  /** `collate` gives a name's key in the order of the locale. */
  method HostNames(nodes: seq<KNode>, byHost: map<string, seq<KNode>>, view: Option<string>, collate: string -> string)
    returns (hosts: seq<string>, ghost order: seq<string>)
    requires Grouped(nodes, NodeNames(nodes), byHost)
    ensures RowsFrom(nodes, order, hosts) && AreRows(nodes, hosts)
    ensures Ascending(order, RowKeys(nodes, view, collate))
  {
    var names := NodesByName(nodes);
    SortKeepsElements(names, RowKeys(nodes, view, collate));
    SortStaysDistinct(names, RowKeys(nodes, view, collate));
    hosts := SortBy(names, RowKeys(nodes, view, collate));
    order := hosts;
    assert GroupedAt(nodes, NodeNames(nodes), byHost, ORPHAN);
    if ORPHAN in byHost {
      hosts := hosts + [ORPHAN];
    } else {
      assert hosts == order + [];
    }
    assert RowsFrom(nodes, order, hosts);
  }

  /** All pods of the rows, each as often as it is shown. */
  function Shown(nodes: seq<KNode>, names: set<string>, hosts: seq<string>): multiset<KNode> {
    if hosts == [] then multiset{}
    else Shown(nodes, names, hosts[..|hosts| - 1]) + multiset(PodsOn(nodes, names, hosts[|hosts| - 1]))
  }

  lemma {:induction false} ShownNothing(names: set<string>, hosts: seq<string>)
    ensures Shown([], names, hosts) == multiset{}
  {
    if hosts != [] {
      ShownNothing(names, hosts[..|hosts| - 1]);
    }
  }

  /** One more graph node shows up in its own row, if that is among the rows, and nowhere else. */
  lemma {:induction false} ShowOne(nodes: seq<KNode>, n: KNode, names: set<string>, hosts: seq<string>)
    requires Distinct(hosts)
    ensures Shown(nodes + [n], names, hosts)
         == Shown(nodes, names, hosts) + if IsPod(n) && HostKey(names, n) in hosts then multiset{n} else multiset{}
  {
    if hosts != [] {
      var init, last := hosts[..|hosts| - 1], hosts[|hosts| - 1];
      assert hosts == init + [last] && last !in init;
      ShowOne(nodes, n, names, init);
      PickPush(nodes, n, RunsOn(names, last));
    }
  }

  /** Distinct rows that include every pod's host show every pod once. */
  lemma {:induction false} DistinctRowsPartition(nodes: seq<KNode>, names: set<string>, hosts: seq<string>)
    requires Distinct(hosts) && forall p :: p in nodes && IsPod(p) ==> HostKey(names, p) in hosts
    ensures Shown(nodes, names, hosts) == multiset(Pick(nodes, IsPod))
  {
    if nodes == [] {
      ShownNothing(names, hosts);
    } else {
      var init, last := nodes[..|nodes| - 1], nodes[|nodes| - 1];
      assert nodes == init + [last];
      DistinctRowsPartition(init, names, hosts);
      ShowOne(init, last, names, hosts);
    }
  }

  lemma OnlyOrphansElsewhere(nodes: seq<KNode>, names: set<string>, p: KNode)
    requires p in nodes && IsPod(p)
    ensures HostKey(names, p) in names || PodsOn(nodes, names, ORPHAN) != []
  {
    PickedAreKept(nodes, RunsOn(names, ORPHAN));
  }

  /** Every pod lands in exactly one row, unless a node is itself named like the orphan bucket and the bucket is in
      use. */
  lemma RowsPartitionPods(nodes: seq<KNode>, hosts: seq<string>)
    requires AreRows(nodes, hosts)
    ensures var names := NodeNames(nodes);
            Shown(nodes, names, hosts) == multiset(Pick(nodes, IsPod)) <==>
              !(ORPHAN in names && exists p :: p in nodes && IsPod(p) && HostKey(names, p) == ORPHAN)
  {
    var names := NodeNames(nodes);
    var orphans := PodsOn(nodes, names, ORPHAN);
    var order :| RowsFrom(nodes, order, hosts);
    PickedAreKept(nodes, RunsOn(names, ORPHAN));
    FirstIsIn(orphans);
    if orphans == [] || ORPHAN !in names {
      assert Distinct(hosts);
      forall p | p in nodes && IsPod(p) ensures HostKey(names, p) in hosts {
        OnlyOrphansElsewhere(nodes, names, p);
        assert HostKey(names, p) in names ==> HostKey(names, p) in order;
      }
      DistinctRowsPartition(nodes, names, hosts);
    } else {
      forall p | p in nodes && IsPod(p) ensures HostKey(names, p) in order {
      }
      DistinctRowsPartition(nodes, names, order);
      assert hosts[..|hosts| - 1] == order;
      assert |multiset(orphans)| > 0;
    }
  }

  lemma ShownPush(nodes: seq<KNode>, names: set<string>, hosts: seq<string>, h: string)
    ensures Shown(nodes, names, hosts + [h]) == Shown(nodes, names, hosts) + multiset(PodsOn(nodes, names, h))
  {
    assert (hosts + [h])[..|hosts|] == hosts;
  }

  lemma OrphanNames(nodes: seq<KNode>, node: KNode, pod: KNode)
    requires nodes == [node, pod] && node.kind == "Node" && IsPod(pod) && pod.host == ""
    ensures NodeNames(nodes) == {node.name} && PodsOn(nodes, {node.name}, ORPHAN) == [pod]
  {
    var names := {node.name};
    assert nodes == [] + [node] + [pod] && node in nodes;
    PickPush([], node, RunsOn(names, ORPHAN));
    PickPush([] + [node], pod, RunsOn(names, ORPHAN));
  }

  /** Such a node, and a pod without a host: the pod is shown in two rows. */
  lemma OrphanNodeShowsTwice(nodes: seq<KNode>, node: KNode, pod: KNode, hosts: seq<string>)
    requires nodes == [node, pod] && node.kind == "Node" && node.name == ORPHAN && IsPod(pod) && pod.host == ""
    requires hosts == [ORPHAN, ORPHAN]
    ensures AreRows(nodes, hosts) && Shown(nodes, NodeNames(nodes), hosts) == multiset{pod, pod}
  {
    var names, order := NodeNames(nodes), [ORPHAN];
    OrphanNames(nodes, node, pod);
    assert hosts == order + [ORPHAN] && order == [] + [ORPHAN];
    assert RowsFrom(nodes, order, hosts);
    ShownPush(nodes, names, [], ORPHAN);
    ShownPush(nodes, names, order, ORPHAN);
  }

  // ---- one scale for all rows ----

  function UseIn(usage: map<string, real>): KNode -> real {
    (p: KNode) => if p.id in usage then usage[p.id] else 0.0
  }

  function RequestOf(p: KNode): real {
    match p.request
    case Some(r) => r
    case None => 0.0
  }

  function Requested(): KNode -> real {
    (p: KNode) => RequestOf(p)
  }

  /** A node's physical size, or what it can schedule when only that is known. */
  function SizeOf(byName: map<string, KNode>, host: string): Option<real> {
    if host !in byName then None
    else if byName[host].capacity.Some? then byName[host].capacity else byName[host].allocatable
  }

  /** The lengths one row asks for. */
  function Wants(nodes: seq<KNode>, byName: map<string, KNode>, usage: map<string, real>, host: string): (r: seq<real>)
    ensures |r| == 3
  {
    var pods := PodsOn(nodes, NodeNames(nodes), host);
    [Sum(pods, UseIn(usage)), Sum(pods, Requested()), match SizeOf(byName, host) case Some(v) => v case None => 0.0]
  }

  ghost predicate AllWithin(w: seq<real>, top: real) {
    forall k :: 0 <= k < |w| ==> w[k] <= top
  }

  ghost predicate SomeReaches(nodes: seq<KNode>, byName: map<string, KNode>, usage: map<string, real>,
                              hosts: seq<string>, top: real)
  {
    exists h, k :: h in hosts && 0 <= k < 3 && Wants(nodes, byName, usage, h)[k] == top
  }

  /** `top` is the largest length any of the rows asks for, 0 when there are none. */
  ghost predicate IsTop(nodes: seq<KNode>, byName: map<string, KNode>, usage: map<string, real>, hosts: seq<string>,
                        top: real)
  {
    && top >= 0.0
    && (forall h :: h in hosts ==> AllWithin(Wants(nodes, byName, usage, h), top))
    && (top > 0.0 ==> SomeReaches(nodes, byName, usage, hosts, top))
  }

  lemma TopOfMore(nodes: seq<KNode>, byName: map<string, KNode>, usage: map<string, real>, hosts: seq<string>,
                  h: string, top: real, next: real)
    requires IsTop(nodes, byName, usage, hosts, top)
    requires var w := Wants(nodes, byName, usage, h); next == Wider(top, Wider(w[2], Wider(w[0], w[1])))
    ensures IsTop(nodes, byName, usage, hosts + [h], next)
  {
    var w := Wants(nodes, byName, usage, h);
    assert h in hosts + [h];
    forall g | g in hosts + [h] ensures AllWithin(Wants(nodes, byName, usage, g), next) {
      assert g in hosts ==> AllWithin(Wants(nodes, byName, usage, g), top);
    }
    if next > 0.0 && next == top {
      var g, k :| g in hosts && 0 <= k < 3 && Wants(nodes, byName, usage, g)[k] == top;
      assert g in hosts + [h];
    } else if next > 0.0 {
      var k := if next == w[0] then 0 else if next == w[1] then 1 else 2;
      assert w[k] == next;
    }
  }

  /** The largest want so far and those of one more row. */
  method WidenBy(nodes: seq<KNode>, byName: map<string, KNode>, byHost: map<string, seq<KNode>>,
                 usage: map<string, real>, host: string, top: real) returns (next: real)
    requires Grouped(nodes, NodeNames(nodes), byHost)
    ensures var w := Wants(nodes, byName, usage, host); next == Wider(top, Wider(w[2], Wider(w[0], w[1])))
  {
    var pods := PodsFor(byHost, host);
    assert GroupedAt(nodes, NodeNames(nodes), byHost, host);
    var use := Total(pods, UseIn(usage));
    var req := Total(pods, Requested());
    var size := match SizeOf(byName, host) case Some(v) => v case None => 0.0;
    next := Wider(top, Wider(size, Wider(use, req)));
  }

  method LargestWant(nodes: seq<KNode>, byName: map<string, KNode>, byHost: map<string, seq<KNode>>,
                     usage: map<string, real>, hosts: seq<string>) returns (top: real)
    requires Grouped(nodes, NodeNames(nodes), byHost)
    ensures IsTop(nodes, byName, usage, hosts, top)
  {
    top := 0.0;
    for i := 0 to |hosts|
      invariant IsTop(nodes, byName, usage, hosts[..i], top)
    {
      var next := WidenBy(nodes, byName, byHost, usage, hosts[i], top);
      TopOfMore(nodes, byName, usage, hosts[..i], hosts[i], top, next);
      assert hosts[..i + 1] == hosts[..i] + [hosts[i]];
      top := next;
    }
    assert hosts[..|hosts|] == hosts;
  }

  /** Pixels per unit: the longest of all tracks and bars takes the whole width. */
  function ScaleFor(top: real): (scale: real)
    requires top >= 0.0
    ensures scale > 0.0
    ensures top > 0.0 ==> top * scale == CAP_TRACK_MAX
  {
    CAP_TRACK_MAX / if top == 0.0 then 1.0 else top
  }

  function Scaled(v: real, top: real): (px: real)
    requires top >= 0.0
    ensures v <= top ==> px <= CAP_TRACK_MAX
    ensures v == top && top > 0.0 ==> px == CAP_TRACK_MAX
  {
    TimesIsMonotone(v, top, ScaleFor(top));
    v * ScaleFor(top)
  }

  lemma TimesIsMonotone(a: real, b: real, s: real)
    requires s > 0.0
    ensures a <= b ==> a * s <= b * s
  {
    if a <= b {
      assert (b - a) * s >= 0.0;
    }
  }

  ghost predicate RowFits(w: seq<real>, top: real)
    requires top >= 0.0
  {
    forall k :: 0 <= k < |w| ==> Scaled(w[k], top) <= 1080.0
  }

  /** On the scale, every row's use, requests and known capacity fit the track, and unless all are zero one fills it. */
  lemma EveryRowFits(nodes: seq<KNode>, byName: map<string, KNode>, usage: map<string, real>, hosts: seq<string>,
                     top: real)
    requires IsTop(nodes, byName, usage, hosts, top)
    ensures forall h :: h in hosts ==> RowFits(Wants(nodes, byName, usage, h), top)
    ensures top > 0.0 ==>
            exists h, k :: h in hosts && 0 <= k < 3 && Scaled(Wants(nodes, byName, usage, h)[k], top) == 1080.0
  {
    forall h | h in hosts ensures RowFits(Wants(nodes, byName, usage, h), top) {
      assert AllWithin(Wants(nodes, byName, usage, h), top);
    }
    if top > 0.0 {
      var h, k :| h in hosts && 0 <= k < 3 && Wants(nodes, byName, usage, h)[k] == top;
      assert Scaled(Wants(nodes, byName, usage, h)[k], top) == CAP_TRACK_MAX;
    }
  }

  /** The block for the pods of other namespaces. */
  function OtherWidth(others: seq<Item>, size: Item -> real): real {
    if others == [] then 0.0 else Wider(CAP_MIN_SEG, Sum(others, size))
  }

  /** A whole bar, its own pods and one block for those of other namespaces, overshoots the track by the minimum
      widths it had to add and no more. */
  lemma BarFitsTrack(own: seq<Item>, others: seq<Item>, size: Item -> real)
    requires NoneNegative(own, size) && NoneNegative(others, size)
    requires Sum(own, size) + Sum(others, size) <= CAP_TRACK_MAX
    ensures Drawn(own, size) + OtherWidth(others, size)
         <= CAP_TRACK_MAX + CAP_SEG_FOLD * (2 + |Pick(own, Flagged(size))|) as real
  {
    DrawnIsFaithful(own, size);
    SumIsNotNegative(others, size);
    AddUp(Drawn(own, size), OtherWidth(others, size), Sum(own, size), Sum(others, size), |Pick(own, Flagged(size))|);
  }

  lemma AddUp(drawn: real, other: real, own: real, others: real, flagged: nat)
    requires drawn - own <= CAP_SEG_FOLD * (1 + flagged) as real && other <= others + CAP_MIN_SEG
    requires own + others <= CAP_TRACK_MAX
    ensures drawn + other <= CAP_TRACK_MAX + CAP_SEG_FOLD * (2 + flagged) as real
  {
    assert (2 + flagged) as real == (1 + flagged) as real + 1.0;
    assert CAP_SEG_FOLD * (2 + flagged) as real == CAP_SEG_FOLD * (1 + flagged) as real + CAP_SEG_FOLD;
  }

  // ---- rows on the fields ----

  /** A pod is in the row of the node it names, if the graph has that node, and among the orphans otherwise. */
  lemma PodIsOnItsHost(nodes: seq<KNode>, p: KNode, host: string)
    ensures p in PodsOn(nodes, NodeNames(nodes), host) <==>
            && p in nodes && p.kind == "Pod"
            && if p.host != "" && (exists n :: n in nodes && n.kind == "Node" && n.name == p.host)
               then host == p.host else host == "__orphan__"
  {
    PickedAreKept(nodes, RunsOn(NodeNames(nodes), host));
  }

  /** What a row asks for: what its pods use, what they request, and what its node has, or else what can be scheduled on
      it; what is not known counts as nothing. */
  lemma RowAsksFor(nodes: seq<KNode>, byName: map<string, KNode>, usage: map<string, real>, host: string,
                   use: KNode -> real, req: KNode -> real)
    requires forall p: KNode :: use(p) == if p.id in usage then usage[p.id] else 0.0
    requires forall p: KNode :: req(p) == if p.request.Some? then p.request.value else 0.0
    ensures
      var w, pods := Wants(nodes, byName, usage, host), PodsOn(nodes, NodeNames(nodes), host);
      && w[0] == Sum(pods, use) && w[1] == Sum(pods, req)
      && (host in byName && byName[host].capacity.Some? ==> w[2] == byName[host].capacity.value)
      && (host in byName && byName[host].capacity.None? && byName[host].allocatable.Some? ==>
            w[2] == byName[host].allocatable.value)
      && (host !in byName || (byName[host].capacity.None? && byName[host].allocatable.None?) ==> w[2] == 0.0)
  {
    var pods := PodsOn(nodes, NodeNames(nodes), host);
    SumAlike(pods, UseIn(usage), use);
    SumAlike(pods, Requested(), req);
  }

  /** A node with a pod of the namespace in view comes before every node without one. */
  lemma OwnHostsFirst(nodes: seq<KNode>, ns: string, collate: string -> string, order: seq<string>, i: nat, j: nat,
                      p: KNode)
    requires Ascending(order, RowKeys(nodes, Some(ns), collate)) && i < |order| && j < |order|
    requires p in PodsOn(nodes, NodeNames(nodes), order[i]) && p.ns == ns
    requires forall q :: q in PodsOn(nodes, NodeNames(nodes), order[j]) ==> q.ns != ns
    ensures i < j
  {
    assert j < i ==> InKeyOrder(order, RowKeys(nodes, Some(ns), collate), j, i);
  }

  /** In cluster scope the nodes are in the order of the locale alone. */
  lemma ScopeIsByName(nodes: seq<KNode>, collate: string -> string, order: seq<string>, i: nat, j: nat)
    requires Ascending(order, RowKeys(nodes, None, collate)) && i < j < |order|
    ensures Below(collate(order[i]), collate(order[j]))
  {
    var x, y := RowKeys(nodes, None, collate)(order[i]), RowKeys(nodes, None, collate)(order[j]);
    assert InKeyOrder(order, RowKeys(nodes, None, collate), i, j);
    assert x[0] == y[0] && x[1..] == [collate(order[i])] && y[1..] == [collate(order[j])];
    assert KeysBelow(x[1..], y[1..]);
    if collate(order[i]) == collate(order[j]) {
      BelowIsTotal(collate(order[i]), collate(order[j]));
    }
  }
}
