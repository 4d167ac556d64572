/**
 internal/kube/graph/model.go and the equality of internal/kube/graph/diff.go: nodes, edges, and what
 counts as a material change of a node.
 */
module GraphModel {
  import opened Prelude

  /** Canonical-unit quantities; an unset one is distinct from zero. */
  datatype Resources = Resources(cpuMilli: Option<int>, memBytes: Option<int>, pods: Option<int>)

  datatype Endpoints = Endpoints(ready: int, total: int, unresolvedPorts: seq<string>)

  datatype ContainerStatus = ContainerStatus(
    name: string, ready: bool, restarts: int, state: string, isInit: bool, sidecar: bool, ephemeral: bool,
    image: string, lastTerminated: string, cpuLimitMilli: int, memLimitBytes: int,
    cpuRequestMilli: int, memRequestBytes: int, lastRestartAt: string)

  /** What a node says about itself in single values. */
  datatype Scalars = Scalars(
    health: string, loggable: bool, status: string, message: string, restarts: int, host: string,
    taints: string, clusterIP: string, externalIP: string, selector: string, nodeSelector: string,
    roleRef: string, secretType: string, accessModes: string, storageClass: string, lastRun: string,
    active: int, failed: int, scaleReplicas: string, scaleRange: string, scaleMetrics: string,
    appDest: string, appRevision: string, pdbPolicy: string, disruptions: string, provisioner: string,
    reclaimPolicy: string, volumeBinding: string, expandable: bool, certNames: string,
    certIssuer: string, certExpiry: string, issuerConfig: string)

  /** ... and in lists. */
  datatype Lists = Lists(
    ports: seq<string>, routes: seq<string>, netPol: seq<string>, scrapes: seq<string>, rules: seq<string>,
    subjects: seq<string>, dataKeys: seq<string>, quotaUsage: seq<string>, ownerUIDs: seq<string>,
    images: seq<string>, ephemeralContainers: seq<string>, containerStatuses: seq<ContainerStatus>)

  /** The fields no comparison looks at. */
  datatype Unwatched = Unwatched(
    createdAt: string, containers: seq<string>, initContainers: seq<string>, capacity: string)

  datatype Node = Node(
    id: string, kind: string, apiVersion: string, ns: string, name: string, scalars: Scalars, lists: Lists,
    endpoints: Option<Endpoints>, allocatable: Option<Resources>, capacityRes: Option<Resources>,
    requests: Option<Resources>, limits: Option<Resources>, labels: map<string, string>, unwatched: Unwatched)

  datatype Edge = Edge(src: string, dst: string, typ: string)

  datatype Graph = Graph(nodes: seq<Node>, edges: seq<Edge>)

  function QuantityEqual(x: Option<int>, y: Option<int>): bool {
    if x.None? != y.None? then false else x.None? || x.value == y.value
  }

  function ResourcesEqual(a: Option<Resources>, b: Option<Resources>): bool {
    if a.None? != b.None? then false
    else if a.None? then true
    else
      && QuantityEqual(a.value.cpuMilli, b.value.cpuMilli)
      && QuantityEqual(a.value.memBytes, b.value.memBytes)
      && QuantityEqual(a.value.pods, b.value.pods)
  }

  function EndpointsEqual(a: Option<Endpoints>, b: Option<Endpoints>): bool {
    if a.None? || b.None? then a.None? && b.None?
    else
      && a.value.ready == b.value.ready && a.value.total == b.value.total
      && a.value.unresolvedPorts == b.value.unresolvedPorts
  }

  function NodeEqual(a: Node, b: Node): bool {
    var (s, t) := (a.scalars, b.scalars);
    var (l, m) := (a.lists, b.lists);
    && a.id == b.id
    && a.kind == b.kind
    && a.apiVersion == b.apiVersion
    && a.ns == b.ns
    && a.name == b.name
    && s.health == t.health
    && s.loggable == t.loggable
    && s.status == t.status
    && s.message == t.message
    && s.restarts == t.restarts
    && s.host == t.host
    && s.taints == t.taints
    && s.clusterIP == t.clusterIP
    && s.externalIP == t.externalIP
    && l.ports == m.ports
    && s.selector == t.selector
    && s.nodeSelector == t.nodeSelector
    && l.routes == m.routes
    && l.netPol == m.netPol
    && l.scrapes == m.scrapes
    && l.rules == m.rules
    && s.roleRef == t.roleRef
    && l.subjects == m.subjects
    && l.dataKeys == m.dataKeys
    && l.quotaUsage == m.quotaUsage
    && s.secretType == t.secretType
    && s.accessModes == t.accessModes
    && s.storageClass == t.storageClass
    && s.lastRun == t.lastRun
    && s.active == t.active
    && s.failed == t.failed
    && s.scaleReplicas == t.scaleReplicas
    && s.scaleRange == t.scaleRange
    && s.scaleMetrics == t.scaleMetrics
    && s.appDest == t.appDest
    && s.appRevision == t.appRevision
    && s.pdbPolicy == t.pdbPolicy
    && s.disruptions == t.disruptions
    && s.provisioner == t.provisioner
    && s.reclaimPolicy == t.reclaimPolicy
    && s.volumeBinding == t.volumeBinding
    && s.expandable == t.expandable
    && s.certNames == t.certNames
    && s.certIssuer == t.certIssuer
    && s.certExpiry == t.certExpiry
    && s.issuerConfig == t.issuerConfig
    && EndpointsEqual(a.endpoints, b.endpoints)
    && ResourcesEqual(a.allocatable, b.allocatable)
    && ResourcesEqual(a.capacityRes, b.capacityRes)
    && ResourcesEqual(a.requests, b.requests)
    && ResourcesEqual(a.limits, b.limits)
    && l.ownerUIDs == m.ownerUIDs
    && l.images == m.images
    && l.ephemeralContainers == m.ephemeralContainers
    && l.containerStatuses == m.containerStatuses
    && a.labels == b.labels
  }

  const Blank := Unwatched("", [], [], "")

  /** A node without the fields that do not count. */
  function Material(n: Node): Node {
    n.(unwatched := Blank)
  }

  /** Two nodes are equal exactly when they agree on everything but the unwatched fields; in particular
      the relation is an equivalence. */
  lemma NodeEqualIffMaterial(a: Node, b: Node)
    ensures NodeEqual(a, b) <==> Material(a) == Material(b)
  {
  }
}
