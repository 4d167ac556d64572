# kd: models and proofs of its live-sync core

kd shows a Kubernetes cluster in a browser view and keeps that view in step with a changing cluster. This project
models the parts of kd whose correctness is not visible in one function, and proves what they promise:

* **Following logs.** The server re-attaches container logs that end, the browser re-connects streams that stall, and
  each time a tail is sent again. Both drop what was already delivered by one rule: the last stamp and how often each
  text was delivered at it. `ReplayFilter` is that rule and its theory (at most once for any tails); `ReplaySlices` says
  exactly when what is delivered is one contiguous slice of the log. `LogScan` and `ClientResume` are the two
  implementations, proved against the rule; `LogSupervisor` with `LogSupervisorRuns`,
  `LogSupervisorSlices`, `LogSupervisorRepeats` and `LogSupervisorRefusals`, and `ClientResumeRuns` with
  `ClientResumeContainers`, carry it to every interleaving of ticks, attaches, ends, prunes, reconnects and evictions.
* **The live graph.** `GraphDiff` computes patches and `GraphState` applies them. `GraphSync` is the whole feed (kinds
  listed and informers read one at a time, coalesced wake-ups, debounce, wire, browser) as interleaved steps: whenever
  the feed is quiet the browser shows the current store, and it always becomes quiet. `GraphStream` holds the imperative halves
  of the server side. `Reconcile` and `WatchedSource` are the two smaller protocols of the same family. `Spotlight` is
  the connected component that a selection lights up.
* **Which nodes have logs.** `Ownership` walks up from the authorized pods, `Descendants` walks down owner edges, and
  `Loggable` proves that the two agree on every owner graph, cyclic ones included, and when that makes the logs of a
  kind and name resolve.
* **Authorization.** `Glob` proves the greedy leftmost matcher equal to the meaning of `*`; `Policies` evaluates
  deny-override over roles and several resource classes.
* **The manifest text.** `JsonTokens` and `YamlTokens` (with `ManifestTokens`, `YamlBlocks`, `TextLines`) scan without
  losing a character; `ManifestLines` regroups by line; `Folds` finds fold regions and hides rows; `SearchRuns`
  and `SearchOverlay` find search hits and lay them over the colours, and `ManifestRows` puts all of it together in the
  rows of the panel.
* **Capacity and ride-along.** `CapacityBar` and `CapacityLayout` bound what a bar may distort and show that rows
  partition the pods; `RideAlong` is the two-phase closure of cluster-scoped objects.

`Prelude` and `Sorting` hold shared vocabulary.

An object that kd updates in place is a class here, and a loop is a loop; where several interleaved parties are the
point, their steps are functions on a world, the class methods are proved equal to those functions, and a run is any
sequence of steps. What the vocabulary of a contract stands for is proved beside it on the fields and texts themselves.
`dafny verify dfyconfig.toml` checks everything.

Where an original ranges over a Go map, the model takes the elements in any order; where the order of a JavaScript map
matters, it is modelled. Stamps are integers, capacities and delays reals. Strings are sequences of characters, where
the originals count bytes (Go) or UTF-16 units (JavaScript); nothing here depends on which.

## Where the code and its comments differ

* `web/src/capacityLayout.ts:133-140` speaks of one minimum width of slack. The code floors every small unhealthy or
  near-limit pod, so the overshoot is exactly what the pods fall short of the widths they are given, and one width is
  enough exactly when that shortfall is no more (`CapacityBar.DrawnOvershoot`). It is bounded by one width for each small
  flagged pod and one more (`CapacityBar.DrawnIsFaithful`); `CapacityBar.SlackCanExceedOneWidth` is an input that needs
  two.
* `web/src/capacityLayout.ts:250-266` puts every pod in exactly one row unless a Node is itself called `__orphan__` and
  the orphan bucket is in use (`CapacityLayout.RowsPartitionPods`, with `CapacityLayout.OrphanNodeShowsTwice` as the
  input). An API server accepts no such name, so this is a limit of the function's domain and not a fault that can be
  reached.
* `internal/api/logstream.go:171-178` prunes the record of a pod that one resolve misses while the container's stream is
  down. Until such a resolve nothing stamped is delivered twice, and after it the run can always go on to deliver a line
  more often than the log holds it (`LogSupervisorRepeats.AtMostOnceIffSpared`); `LogSupervisorRepeats.MissedPodRepeats`
  is a run that delivers the one line of a log twice.
* `internal/api/logstream.go:400-447` and `web/src/logResume.ts:12-17` deliver one contiguous slice exactly when no new
  line repeats a delivered line that the re-sent tail leaves out (`ReplaySlices.ScanContinuesIff`). Tails that reach back
  to the first delivered line with the last stamp always meet that, shorter ones may (`ReplaySlices.ShortTailCanContinue`)
  or may not (`ReplaySlices.ShortTailLosesALine`).
* `internal/api/logstream.go:311-340` finds the node by kind and name, and takes the first of several. The logs of a
  marked node then resolve to an authorized pod exactly when the node taken is itself marked
  (`Loggable.LoggableResolvesToAPod`), as it is when no other node has that kind and name; `Loggable.SharedNameHidesPods`
  is a family of inputs, two resources of different groups under one kind and name, where it is not.
* `web/src/components/ManifestPanel.tsx:148-150` takes the count over the whole text and over the lines to be the same.
  Where lower-casing works line by line and keeps the length of the query, they are exactly when as many occurrences in
  the lowered text start behind the length of the text as do in its lines (`ManifestRows.WholeTextCountIffBeyond`); none
  do when all lengths are kept (`ManifestRows.WholeTextCountIsLineCount`). With two U+0130 on one line and `xx` on the
  next, the query `x` counts 1 in the whole text and marks 2 in the rows (`ManifestRows.GrowingTextLosesAHit`).
* `internal/rbac/rbac.go:137-147` describes the dispatch over several classes. For an empty list of classes the decision
  is the one for a request about every class (`Policies.NoClassAsksForAll`).

## Model

| member | source | states |
|---|---|---|
| ReplayFilter.ScanRecordExact | internal/api/logstream.go:432-443 | after any connection the record holds exactly the newest delivered stamp and, for each text, how often it was delivered at that stamp |
| ReplayFilter.ScanSnapshotExact | internal/api/logstream.go:418-426 | for any re-sent lines, each stamped line is delivered never when older than the last stamp, the excess over earlier deliveries at that stamp, and every time when newer |
| ReplayFilter.DroppedWasDelivered | internal/api/logstream.go:418-426 | every line is delivered or dropped, unstamped lines are never dropped, and a dropped line is older than the last stamp or equals delivered lines in stamp and text, no more often than they were delivered |
| ReplayFilter.FollowRecordExact | web/src/logResume.ts:12-17 | over any series of connections the record stays exact for everything delivered |
| ReplayFilter.FollowAtMostOnce | web/src/logResume.ts:12-17 | whatever tails are re-sent, the stamped lines delivered over all connections form a sub-multiset of the log |
| ReplaySlices.DropsExactly | internal/api/logstream.go:418-426 | which lines a re-attach drops: those of the delivered slice that are read again, and a new one exactly while more of its like were left out than have been read past the slice |
| ReplaySlices.ScanContinuesIff | internal/api/logstream.go:418-426 | a re-attach delivers exactly what follows the delivered slice if and only if its tail leaves no gap and no new line repeats a delivered line that the tail leaves out |
| ReplaySlices.FollowIsOneSliceIff | internal/api/logstream.go:400-447 | over any attaches, what has been delivered is, all the way through, one contiguous slice of the log in order and each position once, if and only if every re-attach carries on in that sense |
| ReplaySlices.LongTailsAreSeamless | internal/api/logstream.go:400-447 | tails that reach back to the first delivered line with the last stamp carry on, whatever the texts are |
| ReplaySlices.ShortTailLosesALine | web/src/logResume.ts:14-16 | a shorter tail can lose a new line that repeats a delivered one |
| ReplaySlices.ShortTailCanContinue | web/src/logResume.ts:14-16 | a shorter tail need not lose anything |
| LogScan.SplitLosesNothing | internal/api/logstream.go:478-491 | a line is split at its first space only when a stamp precedes it, and the parts give the line back |
| LogScan.SplitAtStamp | internal/api/logstream.go:478-491 | and a line is split exactly when what stands before its first space is a stamp |
| LogScan.NoSpaceNoStamp | internal/api/logstream.go:478-491 | a line without a space has no stamp |
| LogScan.PassedAtIsScan | internal/api/logstream.go:409-447 | what passes the scan's filter, read as stamped lines, is what the replay rule delivers |
| LogScan.FilterAtIsScan | internal/api/logstream.go:409-447 | the scan's snapshot and record follow the replay rule line by line |
| LogScan.LogResume.Delivered | internal/api/logstream.go:432-443 | a sent line enters the record: a newer stamp starts a new count, the same stamp counts the text |
| LogScan.ScanLogStream | internal/api/logstream.go:400-458 | for every interruption point, the lines sent, how they are tagged and the record left behind are the replay rule's answer for the lines handled, and a clean end is reported only when all were and nothing failed |
| LogScan.TaggedSpellsLine | internal/api/logstream.go:409-431 | a line is sent under its pod and container; stamp and text give it back when timestamps are asked for, and without them the text is the line, or what follows the stamp when a record is kept |
| LogSupervisor.KeyIsFaithful | internal/api/logstream.go:288-290 | the string key of a stream gives its pod UID back and determines the pod and container |
| LogSupervisor.Supervisor.constructor | internal/api/logstream.go:188-194 | a follow starts with nothing streaming, drained or remembered and the root not yet missed |
| LogSupervisor.Supervisor.PruneLogResumes | internal/api/logstream.go:171-178 | drops exactly the records of pods that are neither present nor streaming |
| LogSupervisor.Supervisor.NoteRoot | internal/api/logstream.go:204-214 | signals the root's disappearance once and notes its return |
| LogSupervisor.Supervisor.Claim | internal/api/logstream.go:222-241 | a target is skipped when it streams, has drained for good or sits at a drained generation; otherwise it is claimed with its own record, a new blank one if it had none |
| LogSupervisorRefusals.RefusedExactly | internal/api/logstream.go:216-255 | in every run a container of a resolved pod is passed over exactly when a stream of it is running, when one that was claimed with its pod finished has ended cleanly, or when it is stopped now and the last draining clean end was of a stream claimed while it was stopped at the same restart count |
| LogSupervisorRefusals.StreamerCameFrom | internal/api/logstream.go:232-246 | every streamer was made by an attach to the target it holds, and its stream is open once it has been opened |
| LogSupervisor.Supervisor.Finish | internal/api/logstream.go:244-258 | only a clean end of an opened stream drains a target, for good when its pod had finished; the claim always ends |
| LogSupervisorRuns.RunIsSound | internal/api/logstream.go:188-275 | in every reachable state each key has at most one streamer, whose record is in the map and unshared, and a terminally drained key has none |
| LogSupervisorRuns.DeliveredAtMostOnce | internal/api/logstream.go:165-275 | over any interleaving of ticks, attaches, early ends, cancellations, prunes and log growth in which no resolve costs a container its record, nothing stamped is delivered twice for it; pods that join late, or are missed while their stream runs, included |
| LogSupervisorRepeats.AtMostOnceIffSpared | internal/api/logstream.go:171-178 | at the first step that might cost a container its record: however the run goes on without such a loss nothing is delivered twice, if and only if that step finds the pod, or its stream is running, or there is no record |
| LogSupervisorRepeats.ForgettingCanRepeat | internal/api/logstream.go:171-178 | after a step that does cost it the run can go on to deliver a stamped line more often than the log holds it |
| LogSupervisorRepeats.MissedPodRepeats | internal/api/logstream.go:171-178 | a run that delivers the one line of a log, misses the pod, finds it again and delivers the line again |
| LogSupervisorSlices.SupervisorFollowsRule | internal/api/logstream.go:188-275 | in every run, what is delivered for a container is what the replay rule delivers over its connections one after the other, starting anew whenever a resolve costs it its record |
| LogSupervisorSlices.SupervisorDeliversOneSlice | internal/api/logstream.go:188-275 | so, while none does, it is one contiguous slice of that container's log, in order and each position once, when each connection reads a tail that carries on from the ones before |
| LogSupervisorRuns.TerminalNeverRestarts | internal/api/logstream.go:224-234 | a key that drained after its pod had finished never gets another streamer |
| LogSupervisorRuns.SignalsOncePerDisappearance | internal/api/logstream.go:184-187 | a resolve signals the disappearance exactly when it misses the root and none since the root was last found has |
| LogSupervisorRuns.SignalsAreSeparated | internal/api/logstream.go:184-187 | two signals always have a resolve that found the root between them |
| ClientResume.LogResume.constructor | web/src/logResume.ts:18-20 | the browser starts with nothing remembered |
| ClientResume.LogResume.Opened | web/src/logResume.ts:23-25 | a new connection starts from a copy of what was accepted |
| ClientResume.LogResume.Accept | web/src/logResume.ts:26-58 | accepts exactly what the replay rule delivers for the entry's source, uses up the snapshot otherwise, and touches no other source except the one evicted |
| ClientResume.LogResume.Reinsert | web/src/logResume.ts:47-56 | the accepted source becomes the last of the map and the first goes when the map is over capacity |
| ClientResume.SourceIsFaithful | web/src/logResume.ts:27 | entries share a record exactly when they come from the same container of one pod, an absent container counting as "" |
| ClientResumeRuns.RunIsOrdered | web/src/logResume.ts:48-50 | in every run the map lists each source once, least recently accepted first, and stays within capacity |
| ClientResumeContainers.EvictedIsOffScreen | web/src/logResume.ts:51-55 | in every run, when an event drops a container's record from the map none of its accepted lines is among the last 2001 accepted ones |
| ClientResumeRuns.RunIsExact | web/src/logResume.ts:12-17 | over every run of opens, lines and evictions each source's record stays exact for the lines accepted since it was created |
| ClientResumeContainers.BufferNeverExceedsLog | web/src/logResume.ts:3-17 | among the last 2001 accepted lines no stamped line of a container of a pod occurs more often than in its log, when each connection sends a log position at most once |
| ClientResumeContainers.BufferIsLast | web/src/logResume.ts:3-10 | those are the last 2001 accepted entries |
| ClientResumeContainers.ClientFollowsServerRule | web/src/logResume.ts:13-16 | from a container whose record no event of the run evicts the browser accepts exactly what the replay rule delivers over the same connections |
| ClientResumeRuns.FewSourcesAreKept | web/src/logResume.ts:48-56 | no source is evicted while there are no more than LOG_BUFFER_CAPACITY of them |
| ClientResumeContainers.ReconnectsShowOneSlice | web/src/logResume.ts:12-17 | such a container is shown, in order, as one contiguous slice of its log when every reconnect carries on from the ones before |
| GraphModel.NodeEqualIffMaterial | internal/kube/graph/diff.go:67-154 | two nodes count as equal, compared field by field, exactly when they agree on everything but creation time, containers, init containers and capacity text, so no other field is left out and the relation is an equivalence |
| GraphDiff.Diff | internal/kube/graph/diff.go:26-65 | upserts the nodes that are new or materially changed, removes the ids that are gone in order, and exchanges exactly the edges that differ |
| GraphDiff.PatchedNodesDiffer | internal/kube/graph/diff.go:26-46 | the nodes sent are those of the next graph that are new or differ materially, each once |
| GraphDiff.RemovedIDsAreGone | internal/kube/graph/diff.go:41-64 | the ids sent are those that are gone, each once and in order |
| GraphDiff.PatchedEdgesDiffer | internal/kube/graph/diff.go:47-60 | the edges sent are those of one graph that the other has not |
| GraphDiff.EmptyIffSame | internal/kube/graph/diff.go:17-65 | a patch is empty exactly when the two graphs have the same ids with materially equal nodes and the same edges |
| GraphState.EdgeKeyIsFaithful | web/src/graphState.ts:13-14 | for ids without the separator the key identifies the edge |
| GraphState.EdgeKeyCollides | web/src/graphState.ts:13-14 | with the separator inside an id two different edges share a key |
| GraphState.FromSnapshot | web/src/graphState.ts:61-68 | the browser's state is the snapshot's nodes by id and its edges |
| GraphState.SnapshotIsHeldWhole | web/src/graphState.ts:61-68 | every node of a snapshot is held whole, no other id is held, and the edges are those sent |
| GraphState.ApplyPatch | web/src/graphState.ts:70-89 | nodes are upserted then removed, edges removed then added without duplicates |
| GraphState.PatchIsHeldWhole | web/src/graphState.ts:70-73 | an upserted node that is not removed is held as it was sent, a removed id is gone, and every other node is held unchanged |
| GraphState.PatchedEdgesAre | web/src/graphState.ts:75-87 | over ids without the separator the edges are those upserted and those held before and not removed, each once |
| GraphState.PatchedEdgesInOrder | web/src/graphState.ts:78-87 | the edges that stay keep their order and new ones come after them |
| GraphState.SnapshotMatches | web/src/graphState.ts:61-68 | after a snapshot the browser holds exactly the graph |
| GraphState.PatchKeepsMatch | web/src/graphState.ts:70-89 | applying the patch between two graphs turns a browser that matches the first into one that matches the second, without duplicate edges |
| GraphState.SameGraphKeepsMatch | internal/api/sse.go:229-235 | an empty patch need not be sent: the browser already matches the next graph |
| GraphState.FedMatchesLatest | internal/api/sse.go:181-256 | after a snapshot and any sequence of patches the browser matches the latest graph |
| GraphSync.RunFollows | internal/api/sse.go:181-256 | in every run the browser will match what was last sent, and every change the handler has not read still has a wake-up on its way |
| GraphSync.QuietMeansInSync | internal/api/sse.go:129-256 | for every interleaving of changes, notifies, listings, reads of informers (some read several times), debounce fires, patches and reconnects, a quiet feed means the browser shows a graph of the current store |
| GraphSync.HeldWasBuilt | internal/api/sse.go:181-256 | in every run each node the browser holds is, as a whole, one that some build made |
| GraphSync.SilentIffSame | internal/api/sse.go:229-235 | a build sends nothing exactly when it shows the same as the last, and one patch otherwise |
| GraphSync.OneReading | internal/api/sse.go:139-149 | a build that always knows what to read next has one reading of a store, and so one graph of it |
| GraphSync.OncePerKindIsValid | internal/kube/store/snapshot.go:17-58 | a build that lists the kinds and reads each informer once meets what is asked of builds |
| GraphSync.InternalStepsLowerRank | internal/api/sse.go:208-256 | every step of the feed itself brings it closer to quiet |
| GraphSync.CanStep | internal/api/sse.go:216-256 | a feed that is not quiet always has a step to take |
| GraphSync.FeedSettles | internal/api/sse.go:129-256 | once the cluster is still the feed reaches a quiet state, and there the browser shows the store |
| GraphSync.SettlingIsBounded | internal/api/sse.go:208-256 | however its steps are scheduled the feed takes no more than its rank before it is quiet |
| GraphStream.Subscribers.Subscribe | internal/kube/store/store.go:641-659 | a new subscriber gets an empty channel of its own |
| GraphStream.Subscribers.Unsubscribe | internal/kube/store/store.go:651-658 | an unsubscribed channel is gone and no other is affected |
| GraphStream.Subscribers.Notify | internal/kube/store/store.go:661-670 | every subscriber is left with exactly one pending signal |
| GraphStream.Handler.OnChange | internal/api/sse.go:220-224 | a signal is taken from the channel; the first of a window sets the timer, later ones are absorbed: the feed's step |
| GraphStream.Handler.OnFire | internal/api/sse.go:225-227 | the timer opens the next window and starts a build: the feed's step |
| GraphStream.Handler.OnBuilt | internal/api/sse.go:229-242 | a finished build is sent as a patch unless nothing changed, and becomes the next base: the feed's step |
| Spotlight.SpotlightSubtree | web/src/graphState.ts:16-41 | lights only nodes connected to the selection in either direction, and keys of edges between lit nodes; where no two edges share a key, all of them and the keys of all their edges; it ends on cyclic graphs too |
| Spotlight.LinkedEitherWay | web/src/graphState.ts:26-36 | a link is an edge from either end to the other |
| Spotlight.ConnectedBack | web/src/graphState.ts:16-41 | being connected goes both ways |
| Spotlight.LitKeyIsLitEdge | web/src/graphState.ts:28-30 | where no two edges share a key, skipping a key already lit skips nothing |
| Spotlight.PlainKeysTellEdges | web/src/graphState.ts:13-14 | no two edges share a key when no endpoint id holds the separator |
| Reconcile.Cache.TriggerReconcile | internal/kube/store/store.go:470-480 | starts a loop when none runs and leaves a pending mark otherwise |
| Reconcile.Cache.EndRound | internal/kube/store/store.go:484-496 | a finished round goes round again exactly when a trigger is pending |
| Reconcile.AtMostOneLoop | internal/kube/store/store.go:470-496 | in every run one loop exists exactly while the running flag is set |
| Reconcile.NoTriggerIsLost | internal/kube/store/store.go:468-496 | every trigger is followed by a discovery that starts after it, or one is still guaranteed |
| Reconcile.NoDiscoveryUnasked | internal/kube/store/store.go:468-496 | there is never more than one discovery for a trigger, those still to come included |
| Reconcile.GuaranteedDiscoveryComes | internal/kube/store/store.go:482-496 | each step of the loop brings the guaranteed discovery nearer and further triggers do not put it off |
| WatchedSource.WatchedEventSource.constructor | web/src/api.ts:133-134 | the stream opens with one connection and one armed timer |
| WatchedSource.WatchedEventSource.OnSignal | web/src/api.ts:110-124 | only the current connection of an open stream re-arms the timer, resets the backoff and reaches a handler |
| WatchedSource.WatchedEventSource.OnExpire | web/src/api.ts:97-104 | an expired timer replaces the connection and arms a longer, jittered delay |
| WatchedSource.WatchedEventSource.OnVisible | web/src/api.ts:128-130 | a returning tab gets a fresh grace window |
| WatchedSource.WatchedEventSource.DoClose | web/src/api.ts:135-140 | closing stops the timer and the connection |
| WatchedSource.AlwaysOneTimer | web/src/api.ts:88-140 | while open exactly one timer is armed and one connection is open, after close none, in every run |
| WatchedSource.SupersededStaysSilent | web/src/api.ts:84-124 | nothing a superseded or closed connection says reaches a handler, the timer or the backoff again |
| WatchedSource.ReconnectDelays | web/src/api.ts:99-102 | every delay armed by a reconnect lies between 48 and 120 seconds |
| WatchedSource.LifeResets | web/src/api.ts:91-95 | anything but an error from the current connection resets the backoff and grants a fresh deadline of 40 seconds |
| WatchedSource.ErrorsChangeNothing | web/src/api.ts:124 | an error leaves timer, backoff and connection as they are |
| WatchedSource.ReturnGrantsGrace | web/src/api.ts:128-130 | a returning tab gets a fresh deadline and keeps its backoff |
| WatchedSource.HandledExactly | web/src/api.ts:111-124 | handlers hear everything the current connection of an open stream says but pings |
| WatchedSource.OutageAfterLife | web/src/api.ts:91-104 | from a sign of life on, silent attempts arm the delays of 60, 90 and then 120 seconds of backoff |
| WatchedSource.DelayIsJittered | web/src/api.ts:100-102 | a delay is the backoff jittered by a fifth either way and cut at 120 seconds |
| WatchedSource.OutageBackoff | web/src/api.ts:71-104 | in an outage the backoff is 40, 60, 90 and then 120 seconds, one new connection an attempt |
| Ownership.LoggableUIDs | internal/kube/graph/build.go:140-187 | marks exactly the objects that survive the build and have an authorized pod at or below them, and ends on cyclic ownership |
| Loggable.NodeOnFields | internal/kube/graph/build.go:189-225 | a ReplicaSet is left out of the log graph exactly when it is controlled, wants no replicas and has none, a ConfigMap when it is the root certificate; pods and all else are nodes |
| Loggable.ChainIsMarked | internal/kube/graph/build.go:140-187 | of a Deployment, its ReplicaSet and an authorized pod of that, the Deployment is marked exactly unless the ReplicaSet is controlled, wants no replicas and has none |
| Ownership.PodsOnFields | internal/kube/graph/build.go:208-212 | only the displayed graph leaves pods out: those that succeeded under a controller |
| Ownership.WalkedPath | internal/kube/graph/build.go:165-185 | whatever lies above a source through surviving objects has been visited and marked when the stack is empty |
| Descendants.EdgeBuilder.Add | internal/kube/graph/edges.go:50-56 | an edge is appended once |
| Descendants.BuildEdges | internal/kube/graph/edges.go:80-91 | the owner edges are exactly those from a node of the graph to a node that names it as an owner, without duplicates and whatever else is inferred |
| Descendants.DescendantIDs | internal/kube/graph/filter.go:117-143 | exactly the ids reachable down owner edges, once each and in order, and it ends on cyclic ownership |
| Descendants.DescendantPods | internal/kube/graph/filter.go:86-103 | exactly the pods at or below the node, by namespace and then name |
| Descendants.PodsInOrder | internal/kube/graph/filter.go:99-101 | by namespace first, then by name |
| Loggable.StepsAgree | internal/kube/graph/build.go:181-185 | a step of the walk up is an owner edge of the log graph the other way round |
| Loggable.LoggableIffResolvable | internal/kube/graph/build.go:140-187 | a node is marked exactly when an authorized pod is reachable from it downward in the graph built for logs |
| Loggable.LogNodes | internal/kube/graph/build.go:282-290 | the nodes of the graph built for logs, in the order of kind, namespace, name and id |
| Loggable.LogNodesInOrder | internal/kube/graph/build.go:282-290 | by kind first, then by namespace, by name and by id |
| Loggable.NodesHaveKinds | internal/kube/graph/build.go:50-62 | no node is without a kind |
| Loggable.SyntheticIDIsFaithful | internal/kube/graph/build.go:257-262 | objects without a UID have one node id exactly when kind, namespace and name agree, for kinds and namespaces without a slash |
| Loggable.FindNode | internal/kube/graph/filter.go:108-115 | a kind and name stand for the first of their nodes by namespace and then id, or for none |
| Loggable.OneIsPicked | internal/kube/graph/filter.go:108-115 | that determines the node |
| Loggable.PodsForResource | internal/api/logstream.go:318-338 | a missing resource is told apart from one without pods; the pods returned are exactly those at or below the node that the kind and name stand for |
| Loggable.AuthorizedIsWantedIff | internal/api/logstream.go:332-337 | among the pods wanted for a node is an authorized one exactly when the node is marked |
| Loggable.LoggableResolvesToAPod | internal/api/logstream.go:311-340 | resolving logs by kind and name returns an authorized pod exactly when the node they stand for is marked |
| Loggable.OnlyOneIsPicked | internal/kube/graph/filter.go:108-115 | the only node of its kind and name is the one they stand for |
| Loggable.SharedNameHidesPods | internal/kube/graph/filter.go:108-115 | two resources under one kind and name: the one that owns the pod is marked, the other is taken and no pod is returned |
| Glob.GlobMatch | internal/rbac/rbac.go:210-244 | true exactly when the value is the pattern with each `*` replaced by some string |
| Glob.MatchesIsAnchored | internal/rbac/rbac.go:219 | splitting at the stars loses nothing: a match is the segments in order with anything between them |
| Glob.LeftmostIsEnough | internal/rbac/rbac.go:236-240 | taking the leftmost occurrence of a segment never loses a match |
| Policies.MatchesScope | internal/rbac/rbac.go:49-64 | a rule covers the cluster scope only when it says so or names no scope at all, and a namespace only by its globs |
| Policies.MatchAny | internal/rbac/rbac.go:66-76 | some pattern matches, or none is given |
| Policies.MatchAnyValue | internal/rbac/rbac.go:78-90 | some pattern matches some value, or no pattern is given |
| Policies.RoleSet | internal/rbac/rbac.go:192-208 | the default roles, the user's and those of each group |
| Policies.Decide | internal/rbac/rbac.go:166-190 | allowed exactly when some allow rule of the caller's roles covers the request and no deny rule, global or of any role, does, in whatever order roles come |
| Policies.PermitsByListing | internal/rbac/rbac.go:166-208 | a request is permitted exactly when some role listed by default, for the user or for one of the groups allows it, no such role denies it and no global rule does |
| Policies.UserRoleGrants | internal/rbac/rbac.go:203 | a role assigned to the user alone grants what its rules cover |
| Policies.GroupRoleGrants | internal/rbac/rbac.go:204-206 | so does a role of one of the groups |
| Policies.DefaultRoleGrants | internal/rbac/rbac.go:202 | and a default role |
| Policies.ActingRoleDenies | internal/rbac/rbac.go:173-182 | a deny of any of these roles cannot be overridden |
| Policies.OneRuleDecides | internal/rbac/rbac.go:43-90 | what one rule lets a caller do who has no other, on the fields of the rule: scope, actions and classes |
| Policies.Enforcer.Replace | internal/rbac/rbac.go:124-129 | later requests are decided by the new policy alone |
| Policies.Enforcer.EnforceAny | internal/rbac/rbac.go:137-153 | the current policy's decision over several classes |
| Policies.Enforcer.Enforce | internal/rbac/rbac.go:131-135 | the current policy's decision over one class |
| Policies.PermitsByClass | internal/rbac/rbac.go:137-147 | over nonempty classes: one class is permitted on its own and none is denied |
| Policies.NoClassAsksForAll | internal/rbac/rbac.go:78-81 | without any class a request is permitted exactly when some allow rule that lists no resources covers it and no such deny rule does |
| Policies.MoreGroupsStayDenied | internal/rbac/rbac.go:173-174 | joining groups never gets a caller past a deny that applies |
| Policies.DenyFreeGroupsKeepAccess | internal/rbac/rbac.go:5-8 | joining groups whose roles deny nothing never revokes access |
| Policies.BareDenyBindsEveryone | internal/rbac/rbac.go:49-52 | a global deny that names no scope holds in every scope, the cluster's included |
| Policies.NamespacesNeverReachCluster | internal/rbac/rbac.go:49-51 | rules that list namespaces never grant cluster-scoped resources |
| Policies.ViewerOnlyReads | internal/rbac/rbac.go:97-102 | the built-in viewer grants get, list and watch everywhere and nothing else |
| Policies.AdminGrantsEverything | internal/rbac/rbac.go:97-102 | the built-in admin grants everything everywhere, for any classes or none |
| JsonTokens.TokenizeJson | web/src/manifestSyntax.ts:150-207 | the tokens give back the input, none is empty, and each is what its type says at its place: strings end at the first unescaped quote, a string is a key exactly when a colon follows |
| JsonTokens.ScanIsUnique | web/src/manifestSyntax.ts:150-207 | those promises leave exactly one tokenization |
| JsonTokens.OneTokenPerPlace | web/src/manifestSyntax.ts:154-205 | the types' rules never compete for the same place |
| JsonTokens.TypeOnText | web/src/manifestSyntax.ts:154-205 | on the text: marks are the six structural characters, a quoted string is a key exactly when a colon comes next behind white space, the three words are keywords |
| YamlTokens.FindKeyColon | web/src/manifestSyntax.ts:90-105 | finds the first colon that is followed by a space or the end and stands outside quotes |
| YamlTokens.QuotedEnd | web/src/manifestSyntax.ts:135-147 | ends just past the closing quote, or at the end when there is none |
| YamlTokens.TokenizeYamlValue | web/src/manifestSyntax.ts:107-133 | adds exactly the tokens of the value: an unquoted scalar as the number, keyword, mark or string it is, a quoted one up to its closing quote; reports exactly the block scalar indicators |
| YamlTokens.TokenizeYamlLine | web/src/manifestSyntax.ts:62-88 | adds exactly the tokens of the line (indent, stacked sequence markers, key, colon, value), and reports the indent exactly when the line opens a block scalar |
| YamlTokens.ScalarOnText | web/src/manifestSyntax.ts:107-133 | the four words are keywords, numbers are numbers, empty collections and block indicators are marks, other plain texts are strings |
| YamlTokens.KeyOnText | web/src/manifestSyntax.ts:75-88 | a key and its colon before a space or the end are shown as such |
| YamlTokens.InnerColonIsNoKey | web/src/manifestSyntax.ts:90-105 | a colon with something else behind it makes no key |
| YamlTokens.MarkerOnText | web/src/manifestSyntax.ts:66-74 | a sequence marker is a mark and what follows it is shown as if it stood alone |
| ManifestTokens.WholesAreNumbers | web/src/manifestSyntax.ts:20 | whole numbers are numbers, with a sign and with a fraction too |
| ManifestTokens.ExponentsAreNumbers | web/src/manifestSyntax.ts:20 | so they are with an exponent |
| ManifestTokens.LeadingZeroIsNoNumber | web/src/manifestSyntax.ts:20 | further digits behind a leading zero make no number |
| YamlTokens.BlankOnText | web/src/manifestSyntax.ts:48 | spaces, tabs and carriage returns alone are blank, a printed character is not |
| ManifestTokens.ClosesOnText | web/src/manifestSyntax.ts:135-147 | a single quote always closes, a double quote unless an unescaped backslash stands before it |
| YamlTokens.LineSpells | web/src/manifestSyntax.ts:62-133 | those tokens give the line back and none is empty |
| YamlTokens.OneQuoteEnd | web/src/manifestSyntax.ts:135-147 | where a quoted string ends is determined by the quotes that close it |
| YamlTokens.OpenerIsShown | web/src/manifestSyntax.ts:107-117 | a line that opens a block scalar ends in its indicator, shown as a mark |
| YamlTokens.TokenizeYaml | web/src/manifestSyntax.ts:36-60 | the tokens are those of the lines in order, block content as one string token a line and any other line part by part, with the newlines between; they give back the document and none is empty or straddles a line |
| YamlBlocks.ContentIffOpened | web/src/manifestSyntax.ts:37-56 | a line is block content exactly when an opener before it reaches it through blank or deeper lines |
| TextLines.LinesAreTheOnlySplit | web/src/manifestSyntax.ts:215-217 | newline-free lines that join to a text are its lines |
| ManifestLines.SplitManifestLines | web/src/manifestSyntax.ts:215-232 | entries without newlines that join to the input, whose tokens spell them, and every character keeps the type of its token |
| ManifestLines.TokensAreUnique | web/src/manifestSyntax.ts:36-207 | in either format a text has one tokenization |
| ManifestLines.WholeLinesAreLines | web/src/manifestSyntax.ts:215-217 | such entries are exactly the lines of the input, joined by newlines they give it back |
| Folds.ComputeFolds | web/src/manifestSyntax.ts:252-279 | returns all fold regions and nothing else, in order: each body is the longest run below its header that belongs to it, without trailing blanks |
| Folds.MetaOnText | web/src/manifestSyntax.ts:240-256 | indent, blank lines and sequence entries read off the text |
| Folds.NextLineDecides | web/src/manifestSyntax.ts:252-279 | a header folds exactly when the line below it is deeper, or a sequence entry at the indent of a header that is none |
| Folds.FoldOnFields | web/src/manifestSyntax.ts:252-279 | a fold ends with its last line that is not blank, every line in it belongs to it and the next one that is not blank does not |
| Folds.FoldsAreLaminar | web/src/manifestSyntax.ts:252-265 | any two folds are nested or disjoint, for every pattern of indents, sequence markers and blank lines |
| Folds.InsideIsTransitive | web/src/manifestSyntax.ts:262-263 | what belongs to a header inside a body belongs to that body's header |
| Folds.HiddenRows | web/src/components/ManifestPanel.tsx:122-131 | one furthest-end marker hides exactly the rows that lie in some collapsed header's body |
| SearchRuns.SplitByMatch | web/src/logs.ts:161-183 | the segments spell the line and the number of hits is exact even when lower-casing changes lengths; when it does not, the hits are exactly the leftmost occurrences that do not overlap |
| SearchRuns.HitsAreCounted | web/src/logs.ts:171-181 | there are as many hits as leftmost occurrences that do not overlap |
| SearchRuns.SplitHitsAreCounted | web/src/logs.ts:171-181 | when lower-casing keeps lengths the number of hits is that of leftmost occurrences that do not overlap |
| SearchRuns.SplitHitsMissBeyond | web/src/logs.ts:171-181 | whatever lower-casing does to the line, the hits are all leftmost occurrences that do not overlap but those that start behind the length of the line |
| SearchRuns.HitsPerLineAddUp | web/src/components/ManifestPanel.tsx:148-150 | a query without a newline has as many hits in the whole text as in its lines together |
| SearchOverlay.MergeMatchRuns | web/src/manifestSyntax.ts:291-317 | each segment keeps its text and whether it is a hit, and each character the type of its token |
| ManifestRows.Rows | web/src/components/ManifestPanel.tsx:98-150 | one row a line; together they show the one tokenization of the text in its colours, or no colours above the size limit; hits are numbered through all rows; a row is foldable, collapsed and hidden exactly as the folds say, and none hidden under a query; the total beside them is that of the rows exactly when as many occurrences lie beyond the text as beyond its lines |
| ManifestRows.WholeTextCountIffBeyond | web/src/components/ManifestPanel.tsx:148-150 | when lower-casing works line by line and keeps the length of the query, counting over the whole text and line by line comes to the same exactly when as many occurrences start behind the length of the text as behind that of its lines |
| ManifestRows.WholeTextCountIsLineCount | web/src/components/ManifestPanel.tsx:148-150 | when it keeps the lengths of all lines too, none does and the counts agree |
| ManifestRows.GrowingTextLosesAHit | web/src/components/ManifestPanel.tsx:148-150 | two U+0130 before a newline make the whole text's count miss a hit that the rows mark |
| CapacityBar.BuildCapBar | web/src/capacityLayout.ts:141-175 | the bar is tiled without gaps, kept pods in order and then one block for the folded, and ends exactly the shortfall past the true scaled length |
| CapacityBar.BarIsTiled | web/src/capacityLayout.ts:157-174 | every segment begins where the one before it ends and is as wide as its value, 4 pixels at least; the block of the folded follows the last |
| CapacityBar.FoldsTogether | web/src/capacityLayout.ts:148-156 | two or more small, healthy pods far from their limit fold, all of them; one alone stays |
| CapacityBar.BlockAddsUp | web/src/capacityLayout.ts:166-174 | the block counts the folded pods and adds up their use and their requests |
| CapacityBar.KeptAndFolded | web/src/capacityLayout.ts:150-174 | segments and fold split the pods exactly and conserve every total, and no unhealthy or near-limit pod folds |
| CapacityBar.DrawnOvershoot | web/src/capacityLayout.ts:133-140 | the drawn length exceeds the true one by exactly what small flagged pods, and the foldable ones or their block, fall short of the widths they are given; one minimum width of slack is enough exactly when that is no more |
| CapacityBar.DrawnIsFaithful | web/src/capacityLayout.ts:133-140 | the drawn length overshoots the true one by at least nothing and at most one minimum width, plus one for each small unhealthy or near-limit pod |
| CapacityBar.SlackCanExceedOneWidth | web/src/capacityLayout.ts:133-140 | two failing pods without usage overshoot by two minimum widths |
| CapacityLayout.PodsByHost | web/src/capacityLayout.ts:249-256 | groups the pods by their known host, the rest as orphans |
| CapacityLayout.PodIsOnItsHost | web/src/capacityLayout.ts:249-256 | a pod is in the row of the node it names, if the graph has that node, and among the orphans otherwise |
| CapacityLayout.HostNames | web/src/capacityLayout.ts:257-266 | one row for every node, those that run pods of the namespace in view first and then by name in the order of the locale, and one last for the orphans if there are any |
| CapacityLayout.OwnHostsFirst | web/src/capacityLayout.ts:257-265 | a node with a pod of the namespace in view comes before every node without one |
| CapacityLayout.ScopeIsByName | web/src/capacityLayout.ts:257-265 | in cluster scope nodes are in the order of the locale alone |
| CapacityLayout.RowsPartitionPods | web/src/capacityLayout.ts:246-266 | every pod lands in exactly one row, except exactly when a node is itself named `__orphan__` and the orphan bucket is in use |
| CapacityLayout.OrphanNodeShowsTwice | web/src/capacityLayout.ts:250-266 | a node of that name and a pod without a host: the pod is in two rows |
| CapacityLayout.LargestWant | web/src/capacityLayout.ts:272-285 | the largest use, request or known capacity of any row |
| CapacityLayout.RowAsksFor | web/src/capacityLayout.ts:274-284 | a row asks for what its pods use, what they request, and what its node has, or else what can be scheduled on it |
| CapacityLayout.EveryRowFits | web/src/capacityLayout.ts:268-291 | on the one scale every row's use, requests and known capacity fit 1080 pixels, and unless all are zero one of them fills them |
| CapacityLayout.BarFitsTrack | web/src/capacityLayout.ts:286-291 | a whole bar overshoots the track by the minimum widths it had to add and no more |
| RideAlong.AppendRideAlong | internal/kube/store/snapshot.go:127-229 | appends exactly the UIDs not there yet among owners, claimed volumes, bindings of the namespace's service accounts and the roles one or two hops away, each once |
| RideAlong.RidesOnFields | internal/kube/store/snapshot.go:127-229 | on the fields: owners of objects at hand, volumes their claims are bound to, cluster role bindings of their service accounts, and cluster roles granted by role bindings at hand or by those; a reference to another kind of role grants none |
| RideAlong.Collector.Add | internal/kube/store/snapshot.go:167-177 | an object is added unless its UID is already there |
| RideAlong.ScanWants | internal/kube/store/snapshot.go:131-163 | collects what the objects at hand refer to |
| RideAlong.OrderDoesNotMatter | internal/kube/store/snapshot.go:178-180 | over the same informers in any order the same UIDs come along |
| RideAlong.OrderKeepsObjects | internal/kube/store/snapshot.go:178-180 | where one UID is one object, the same objects come along |

## Left out

- ClientResumeContainers.BufferNeverExceedsLog: for pod names without a slash, as the API server keeps them; counts the stamped lines among the last 2001 accepted lines, not the last 2001 stamped ones; unstamped lines take part in the buffer and in the order of the map.
- LogScan.SplitLosesNothing: the parser of stamps is a parameter that only has to reject the empty string, and stamps are integers; the two fixed-width string and time orders are taken to agree.
- LogSupervisorRuns.RunIsSound: what a stream sends is any sub-multiset of the container's log; the network, contexts and goroutine scheduling are the order of the events.
- GraphModel.NodeEqualIffMaterial: unset and empty lists are one value, as slices.Equal treats them, and the structured entries of lists are compared as whole values.
- GraphDiff.EmptyIffSame: for graphs with unique node ids, as UIDs give.
- GraphState.PatchKeepsMatch: for unique node ids and endpoint ids without the separator; EdgeKeyCollides shows why.
- GraphSync.QuietMeansInSync: registering a kind is taken to owe a notify like any change; in the code the informer's first add events do that. A build is any function of what it read, and the summary and capacity events are not modelled.
- Spotlight.SpotlightSubtree: which nodes stay dark when two different edges share a key depends on their order and is not stated; ids without the separator rule that out.
- Reconcile.NoTriggerIsLost: nothing is claimed about a removed custom resource staying removed; a discovery that predates the removal can register it again (internal/kube/store/store.go:435-466, 498-509).
- Ownership.LoggableUIDs: of the filters on objects only those that the walks consult are modelled; kinds that always count as loggable (internal/kube/graph/build.go:37-45) are not part of the walk.
- Loggable.LoggableResolvesToAPod: pods are typed, carry a UID, and a namespace and name are one pod, as an API server keeps it.
- Loggable.LoggableIffResolvable: for objects as an API server hands them out: every object has a kind, UIDs hold no slash, and two copies of one UID agree on kind, name, owners and exclusion.
- Descendants.BuildEdges: edges other than owner edges are a parameter; their inference from specs is not modelled, nor is the final sort of the edges.
- Policies.Decide: takes a parsed policy; the YAML parser, its validation and the file watcher are not modelled. VisibleNamespaces only filters a list by it.
- ManifestRows.Rows: the indent of a row, which only aligns wrapped text, and the state of a failed request are left out.
- SearchRuns.SplitByMatch: trimming and lower-casing are parameters.
- CapacityLayout.HostNames: the locale's order is a parameter that gives each name its sort key; the stacking of rows and bullets and their pixel positions are not stated.
- CapacityBar.BuildCapBar: values are not negative; the colour and label of a segment are left out.
- RideAlong.OrderDoesNotMatter: which of two objects with the same UID is added, and the order of what is added, may differ.
- HTTP handlers, SSE encoding, compression, authentication headers, configuration and logging: plumbing around the steps modelled here.
- Health rules, status strings and the extractors of specs: long branch tables in which one branch settles each case.
- Views, signals, themes, icons and URL handling of the browser: user interface.
- SummarizeBuilt, defaultLogContainer and spotlightNeighbors: single passes whose result is read off the body.
