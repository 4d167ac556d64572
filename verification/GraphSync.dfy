/**
 internal/api/sse.go with internal/kube/store: the live graph feed, from a change in an informer's
 cache to the browser's graph, as steps that interleave in any order.

 The informers are a version per kind. A build lists the registered kinds and reads the informers one at a time, some
 of them several times, while changes go on; it is any function of what it has read.
 */
module GraphSync {
  import opened Prelude
  import opened GraphModel
  import opened GraphDiff
  import opened GraphState

  /** The registered kinds, and what each informer holds; that of a kind no longer registered holds what it retains. */
  datatype Store = Store(kinds: set<string>, versions: map<string, nat>) {
    function VersionOf(kind: string): nat {
      if kind in versions then versions[kind] else 0
    }
  }

  datatype Want = List | Kind(name: string)
  datatype Read = Listed(kinds: set<string>) | Seen(kind: string, version: nat)

  function Answer(s: Store, want: Want): Read {
    match want
    case List => Listed(s.kinds)
    case Kind(k) => Seen(k, s.VersionOf(k))
  }

  /** A graph builder: what it may read next, nothing when it is done; the graph it makes of what it read; and how much
      more it can read of a store that does not change. */
  datatype Builder = Builder(wants: seq<Read> -> set<Want>, graph: seq<Read> -> Graph, left: (Store, seq<Read>) -> nat)

  ghost predicate WasListed(input: seq<Read>, kind: string) {
    exists i :: 0 <= i < |input| && input[i].Listed? && kind in input[i].kinds
  }

  ghost predicate ReadsOn(b: Builder, s: Store, input: seq<Read>, want: Want) {
    want in b.wants(input) ==> b.left(s, input + [Answer(s, want)]) < b.left(s, input)
  }

  ghost predicate WantsListed(b: Builder, input: seq<Read>, kind: string) {
    Kind(kind) in b.wants(input) ==> WasListed(input, kind)
  }

  /** It reads only kinds that it found listed, comes to an end, and makes graphs with unique ids. */
  ghost predicate Valid(b: Builder) {
    && (forall input, kind :: WantsListed(b, input, kind))
    && (forall s, input, want :: ReadsOn(b, s, input, want))
    && (forall input :: WellFormed(b.graph(input)))
  }

  datatype Message = Snapshot(g: Graph) | Update(p: Patch)

  /** Where the stream handler is: subscribed but not yet reading, having read `input` for a build, or
      waiting in its select loop. */
  datatype Phase = Subscribed | Building(input: seq<Read>, first: bool) | Waiting

  /** `owed` counts changes whose notify has not run, `signal` is the one-slot subscriber channel,
      `armed` the debounce timer, `prevInput` what `prev` was built from. */
  datatype World = World(store: Store, owed: nat, signal: bool, armed: bool, phase: Phase,
                         prev: Graph, prevInput: seq<Read>, wire: seq<Message>, client: State)

  datatype Event =
    | Put(kind: string, version: nat)      // a kind is registered or one of its objects changes
    | Drop(kind: string)                   // a deleted CRD's kind leaves the registered set
    | Linger(kind: string, version: nat)   // the informer of a dropped kind goes on for a while
    | Notify                               // a change handler reaches notify
    | Connect                              // the browser (re)connects: a new subscription
    | Begin                                // the first build starts
    | TakeSignal                           // the loop receives from the channel and arms the timer
    | Fire                                 // the timer fires and the loop starts a build
    | Look(want: Want)                     // the build lists the kinds or reads one informer
    | Finish                               // the build is diffed and sent
    | Deliver                              // the browser handles a message

  const Start := World(Store({}, map[]), 0, false, false, Subscribed, Graph([], []), [], [], EmptyState)

  predicate Enabled(b: Builder, w: World, e: Event) {
    match e
    case Put(_, _) => true
    case Drop(k) => k in w.store.kinds
    case Linger(k, _) => k !in w.store.kinds
    case Notify => w.owed > 0
    case Connect => true
    case Begin => w.phase.Subscribed?
    case TakeSignal => w.phase.Waiting? && w.signal
    case Fire => w.phase.Waiting? && w.armed
    case Look(want) => w.phase.Building? && want in b.wants(w.phase.input)
    case Finish => w.phase.Building? && b.wants(w.phase.input) == {}
    case Deliver => w.wire != []
  }

  function Handle(client: State, m: Message): State {
    match m
    case Snapshot(g) => SnapshotOf(g)
    case Update(p) => Patched(client, p)
  }

  function SentPatch(p: Patch): seq<Message> {
    if p.Empty() then [] else [Update(p)]
  }

  function Sent(first: bool, prev: Graph, next: Graph): seq<Message> {
    if first then [Snapshot(next)] else SentPatch(DiffOf(prev, next))
  }

  function Apply(b: Builder, w: World, e: Event): World {
    if !Enabled(b, w, e) then w else
    match e
    case Put(k, v) => w.(store := Store(w.store.kinds + {k}, w.store.versions[k := v]), owed := w.owed + 1)
    case Drop(k) => w.(store := w.store.(kinds := w.store.kinds - {k}), owed := w.owed + 1)
    case Linger(k, v) => w.(store := w.store.(versions := w.store.versions[k := v]))
    case Notify => w.(owed := w.owed - 1, signal := true)
    case Connect => w.(signal := false, armed := false, phase := Subscribed, wire := [])
    case Begin => w.(phase := Building([], true))
    case TakeSignal => w.(signal := false, armed := true)
    case Fire => w.(armed := false, phase := Building([], false))
    case Look(want) => w.(phase := w.phase.(input := w.phase.input + [Answer(w.store, want)]))
    case Finish =>
      var next := b.graph(w.phase.input);
      w.(phase := Waiting, prev := next, prevInput := w.phase.input,
         wire := w.wire + Sent(w.phase.first, w.prev, next))
    case Deliver => w.(client := Handle(w.client, w.wire[0]), wire := w.wire[1..])
  }

  function Run(b: Builder, events: seq<Event>): World {
    if events == [] then Start
    else Apply(b, Run(b, events[..|events| - 1]), events[|events| - 1])
  }

  // ---- readings of a store ----

  /** What was read is what the store holds. */
  predicate Current(s: Store, r: Read) {
    match r
    case Listed(kinds) => kinds == s.kinds
    case Seen(k, v) => k in s.kinds && v == s.VersionOf(k)
  }

  ghost predicate CurrentAt(s: Store, input: seq<Read>, i: int) {
    0 <= i < |input| ==> Current(s, input[i])
  }

  ghost predicate AllCurrent(s: Store, input: seq<Read>) {
    forall i :: CurrentAt(s, input, i)
  }

  function Asked(r: Read): Want {
    match r
    case Listed(_) => List
    case Seen(k, _) => Kind(k)
  }

  ghost predicate AskedAt(b: Builder, input: seq<Read>, i: int) {
    0 <= i < |input| ==> Asked(input[i]) in b.wants(input[..i])
  }

  /** Each read is one that the builder wanted after those before it. */
  ghost predicate AllAsked(b: Builder, input: seq<Read>) {
    forall i :: AskedAt(b, input, i)
  }

  /** A whole build over a store that does not change meanwhile. */
  ghost predicate IsReadingOf(b: Builder, s: Store, input: seq<Read>) {
    AllAsked(b, input) && b.wants(input) == {} && AllCurrent(s, input)
  }

  /** The browser shows a graph of the store. */
  ghost predicate ShowsStore(b: Builder, client: State, s: Store) {
    exists input :: IsReadingOf(b, s, input) && Matches(client, b.graph(input))
  }

  lemma AskedOn(b: Builder, input: seq<Read>, r: Read)
    requires AllAsked(b, input) && Asked(r) in b.wants(input)
    ensures AllAsked(b, input + [r])
  {
    var more := input + [r];
    forall i ensures AskedAt(b, more, i) {
      if 0 <= i < |input| {
        assert AskedAt(b, input, i) && more[..i] == input[..i];
      } else if i == |input| {
        assert more[..i] == input;
      }
    }
  }

  lemma CurrentOn(b: Builder, s: Store, input: seq<Read>, want: Want)
    requires Valid(b) && AllCurrent(s, input) && want in b.wants(input)
    ensures AllCurrent(s, input + [Answer(s, want)])
  {
    var more := input + [Answer(s, want)];
    if want.Kind? {
      assert WantsListed(b, input, want.name);
      var i :| 0 <= i < |input| && input[i].Listed? && want.name in input[i].kinds;
      assert CurrentAt(s, input, i);
    }
    forall i ensures CurrentAt(s, more, i) {
      assert CurrentAt(s, input, i);
    }
  }

  lemma {:induction false} SameStart(b: Builder, s: Store, x: seq<Read>, y: seq<Read>, i: nat)
    requires IsReadingOf(b, s, x) && IsReadingOf(b, s, y) && i <= |x| && i <= |y|
    requires forall input, a, c :: a in b.wants(input) && c in b.wants(input) ==> a == c
    ensures x[..i] == y[..i]
  {
    if i > 0 {
      SameStart(b, s, x, y, i - 1);
      assert AskedAt(b, x, i - 1) && AskedAt(b, y, i - 1) && CurrentAt(s, x, i - 1) && CurrentAt(s, y, i - 1);
      assert x[..i] == x[..i - 1] + [x[i - 1]] && y[..i] == y[..i - 1] + [y[i - 1]];
    }
  }

  /** A builder that always knows what to read next has one reading of a store, and so one graph of it. */
  lemma OneReading(b: Builder, s: Store, x: seq<Read>, y: seq<Read>)
    requires IsReadingOf(b, s, x) && IsReadingOf(b, s, y)
    requires forall input, a, c :: a in b.wants(input) && c in b.wants(input) ==> a == c
    ensures x == y
  {
    var i := if |x| < |y| then |x| else |y|;
    SameStart(b, s, x, y, i);
    assert x[..|x|] == x && y[..|y|] == y;
    assert AskedAt(b, x, i) && AskedAt(b, y, i);
  }

  // ---- no change is missed ----

  predicate Pending(w: World) {
    w.owed > 0 || w.signal || w.armed
  }

  ghost predicate Fresh(w: World) {
    match w.phase
    case Subscribed => true
    case Building(input, _) => AllCurrent(w.store, input)
    case Waiting => AllCurrent(w.store, w.prevInput)
  }

  /** What the browser will hold once it has handled all of `wire`. */
  function After(client: State, wire: seq<Message>): State
    decreases |wire|
  {
    if wire == [] then client else After(Handle(client, wire[0]), wire[1..])
  }

  ghost predicate Following(b: Builder, w: World) {
    && (w.phase.Waiting? || (w.phase.Building? && !w.phase.first) ==>
          w.prev == b.graph(w.prevInput) && Matches(After(w.client, w.wire), w.prev))
    && (w.phase.Waiting? ==> AllAsked(b, w.prevInput) && b.wants(w.prevInput) == {})
    && (w.phase.Building? ==> AllAsked(b, w.phase.input))
    && (w.armed ==> w.phase.Waiting?)
  }

  /** Everything the handler has not seen yet still has a wake-up on its way to it. */
  ghost predicate Covered(w: World) {
    Pending(w) || Fresh(w)
  }

  lemma LingerIsFresh(s: Store, input: seq<Read>, k: string, v: nat)
    requires AllCurrent(s, input) && k !in s.kinds
    ensures AllCurrent(s.(versions := s.versions[k := v]), input)
  {
    var after := s.(versions := s.versions[k := v]);
    forall i ensures CurrentAt(after, input, i) {
      assert CurrentAt(s, input, i);
    }
  }

  lemma ApplyKeepsCovered(b: Builder, w: World, e: Event)
    requires Valid(b) && Enabled(b, w, e) && Covered(w) && Following(b, w)
    ensures Covered(Apply(b, w, e))
  {
    if !Pending(Apply(b, w, e)) {
      match e
      case Linger(k, v) =>
        if !w.phase.Subscribed? {
          LingerIsFresh(w.store, if w.phase.Building? then w.phase.input else w.prevInput, k, v);
        }
      case Look(want) => CurrentOn(b, w.store, w.phase.input, want);
      case _ =>
    }
  }

  lemma {:induction false} AfterAppend(client: State, wire: seq<Message>, m: Message)
    ensures After(client, wire + [m]) == Handle(After(client, wire), m)
    decreases |wire|
  {
    if wire == [] {
      assert wire + [m] == [m] && [m][1..] == [];
    } else {
      AfterAppend(Handle(client, wire[0]), wire[1..], m);
      assert (wire + [m])[1..] == wire[1..] + [m];
    }
  }

  lemma FirstIsFollowed(client: State, wire: seq<Message>, next: Graph)
    requires WellFormed(next)
    ensures Matches(After(client, wire + [Snapshot(next)]), next)
  {
    AfterAppend(client, wire, Snapshot(next));
    SnapshotMatches(next);
  }

  lemma SentIsFollowed(client: State, wire: seq<Message>, p: Patch, next: Graph)
    requires Matches(if p.Empty() then After(client, wire) else Patched(After(client, wire), p), next)
    ensures Matches(After(client, wire + SentPatch(p)), next)
  {
    if p.Empty() {
      assert wire + [] == wire;
    } else {
      AfterAppend(client, wire, Update(p));
    }
  }

  lemma NextIsFollowed(client: State, wire: seq<Message>, prev: Graph, next: Graph)
    requires WellFormed(prev) && WellFormed(next) && Matches(After(client, wire), prev)
    ensures Matches(After(client, wire + SentPatch(DiffOf(prev, next))), next)
  {
    FeedKeepsMatch(After(client, wire), prev, next);
    SentIsFollowed(client, wire, DiffOf(prev, next), next);
  }

  lemma FinishKeepsFollowing(b: Builder, w: World)
    requires Valid(b) && Following(b, w) && Enabled(b, w, Finish)
    ensures Following(b, Apply(b, w, Finish))
  {
    var next := b.graph(w.phase.input);
    assert WellFormed(next) && WellFormed(b.graph(w.prevInput));
    if w.phase.first {
      FirstIsFollowed(w.client, w.wire, next);
    } else {
      NextIsFollowed(w.client, w.wire, w.prev, next);
    }
  }

  lemma ApplyKeepsFollowing(b: Builder, w: World, e: Event)
    requires Valid(b) && Enabled(b, w, e) && Following(b, w)
    ensures Following(b, Apply(b, w, e))
  {
    match e
    case Finish => FinishKeepsFollowing(b, w);
    case Look(want) => AskedOn(b, w.phase.input, Answer(w.store, want));
    case _ =>
  }

  lemma {:induction false} RunFollows(b: Builder, events: seq<Event>)
    requires Valid(b)
    ensures Covered(Run(b, events)) && Following(b, Run(b, events))
  {
    if events != [] {
      var w, e := Run(b, events[..|events| - 1]), events[|events| - 1];
      RunFollows(b, events[..|events| - 1]);
      if Enabled(b, w, e) {
        ApplyKeepsCovered(b, w, e);
        ApplyKeepsFollowing(b, w, e);
      }
    }
  }

  /** No change is un-notified, the channel is empty, the debounce is not armed, the handler waits in
      its loop and the browser has handled every message. */
  predicate Quiet(w: World) {
    !Pending(w) && w.phase.Waiting? && w.wire == []
  }

  /** For every interleaving of changes, notifies, listings, reads of informers, timer fires, patches and
      reconnects: when the feed is quiet, the browser's graph is the graph of the current store. */
  lemma QuietMeansInSync(b: Builder, events: seq<Event>)
    requires Valid(b) && Quiet(Run(b, events))
    ensures ShowsStore(b, Run(b, events).client, Run(b, events).store)
  {
    var w := Run(b, events);
    RunFollows(b, events);
    assert IsReadingOf(b, w.store, w.prevInput) && Matches(w.client, b.graph(w.prevInput));
  }

  // ---- every node shown was built ----

  ghost predicate WasBuilt(b: Builder, n: Node) {
    exists input :: n in b.graph(input).nodes
  }

  ghost predicate AllBuilt(b: Builder, nodes: seq<Node>) {
    forall n :: n in nodes ==> WasBuilt(b, n)
  }

  ghost predicate SendsBuilt(b: Builder, m: Message) {
    match m
    case Snapshot(g) => AllBuilt(b, g.nodes)
    case Update(p) => AllBuilt(b, p.upsertNodes)
  }

  ghost predicate HoldsBuilt(b: Builder, s: State) {
    forall id :: id in s.nodes ==> WasBuilt(b, s.nodes[id])
  }

  ghost predicate OnlyBuilt(b: Builder, w: World) {
    HoldsBuilt(b, w.client) && forall m :: m in w.wire ==> SendsBuilt(b, m)
  }

  lemma HandleHoldsBuilt(b: Builder, client: State, m: Message)
    requires HoldsBuilt(b, client) && SendsBuilt(b, m)
    ensures HoldsBuilt(b, Handle(client, m))
  {
    var after := Handle(client, m);
    forall id | id in after.nodes ensures WasBuilt(b, after.nodes[id]) {
      match m
      case Snapshot(g) => assert after.nodes[id] in g.nodes;
      case Update(p) => PatchedNodesAreSent(client, p, id);
    }
  }

  lemma FinishSendsBuilt(b: Builder, first: bool, prev: Graph, input: seq<Read>)
    ensures forall m :: m in Sent(first, prev, b.graph(input)) ==> SendsBuilt(b, m)
  {
    assert forall n :: n in b.graph(input).nodes ==> WasBuilt(b, n);
  }

  lemma ApplyKeepsOnlyBuilt(b: Builder, w: World, e: Event)
    requires OnlyBuilt(b, w)
    ensures OnlyBuilt(b, Apply(b, w, e))
  {
    if e.Finish? && Enabled(b, w, e) {
      FinishSendsBuilt(b, w.phase.first, w.prev, w.phase.input);
    } else if e.Deliver? && Enabled(b, w, e) {
      assert w.wire[0] in w.wire;
      HandleHoldsBuilt(b, w.client, w.wire[0]);
    }
  }

  /** In every run each node the browser holds is, as a whole, one that some build made. */
  lemma {:induction false} HeldWasBuilt(b: Builder, events: seq<Event>)
    ensures OnlyBuilt(b, Run(b, events))
  {
    if events != [] {
      HeldWasBuilt(b, events[..|events| - 1]);
      ApplyKeepsOnlyBuilt(b, Run(b, events[..|events| - 1]), events[|events| - 1]);
    }
  }

  /** A build that changes nothing sends nothing, any other one patch. */
  lemma SilentIffSame(prev: Graph, next: Graph)
    requires UniqueIDs(prev.nodes)
    ensures Sent(false, prev, next) == [] <==> SameGraph(prev, next)
    ensures |Sent(false, prev, next)| <= 1
  {
    EmptyIffSame(prev, next);
  }

  // ---- the feed gets quiet ----

  /** A step of the feed itself: neither the cluster nor the connection changes. */
  predicate Internal(e: Event) {
    !e.Put? && !e.Drop? && !e.Linger? && !e.Connect?
  }

  function PhaseRank(b: Builder, s: Store, phase: Phase, n: nat): nat {
    match phase
    case Subscribed => n + 3
    case Building(input, _) => b.left(s, input) + 2
    case Waiting => 0
  }

  function Times(a: nat, b: nat): nat {
    if a == 0 then 0 else Times(a - 1, b) + b
  }

  function Weigh(b: Builder, w: World, n: nat): nat {
    Times(w.owed, n + 5) + (if w.signal then n + 4 else 0) + (if w.armed then n + 3 else 0)
    + PhaseRank(b, w.store, w.phase, n) + |w.wire|
  }

  function Rank(b: Builder, w: World): nat {
    Weigh(b, w, b.left(w.store, []))
  }

  lemma InternalStepsLowerWeight(b: Builder, w: World, e: Event, n: nat)
    requires Valid(b) && Enabled(b, w, e) && Internal(e) && n == b.left(w.store, [])
    ensures Weigh(b, Apply(b, w, e), n) < Weigh(b, w, n)
  {
    if e.Look? {
      assert ReadsOn(b, w.store, w.phase.input, e.want);
    } else if e.Finish? {
      assert |Sent(w.phase.first, w.prev, b.graph(w.phase.input))| <= 1;
    }
  }

  lemma InternalStepsLowerRank(b: Builder, w: World, e: Event)
    requires Valid(b) && Enabled(b, w, e) && Internal(e)
    ensures Rank(b, Apply(b, w, e)) < Rank(b, w)
  {
    InternalStepsLowerWeight(b, w, e, b.left(w.store, []));
  }

  /** A feed that is not quiet always has a step of its own to take. */
  lemma CanStep(b: Builder, w: World) returns (e: Event)
    requires !Quiet(w)
    ensures Internal(e) && Enabled(b, w, e)
  {
    if w.wire != [] {
      e := Deliver;
    } else if w.phase.Subscribed? {
      e := Begin;
    } else if w.phase.Building? {
      if want :| want in b.wants(w.phase.input) {
        e := Look(want);
      } else {
        e := Finish;
      }
    } else {
      e := if w.signal then TakeSignal else if w.armed then Fire else Notify;
    }
  }

  lemma {:induction false} RunSteps(b: Builder, w: World) returns (more: seq<Event>)
    requires Valid(b)
    ensures forall e :: e in more ==> Internal(e)
    ensures Quiet(RunFrom(b, w, more))
    decreases Rank(b, w)
  {
    if Quiet(w) {
      more := [];
    } else {
      var e := CanStep(b, w);
      InternalStepsLowerRank(b, w, e);
      var rest := RunSteps(b, Apply(b, w, e));
      more := [e] + rest;
      assert more[1..] == rest;
    }
  }

  function RunFrom(b: Builder, w: World, events: seq<Event>): World
    decreases |events|
  {
    if events == [] then w else RunFrom(b, Apply(b, w, events[0]), events[1..])
  }

  lemma {:induction false} RunThenRunFrom(b: Builder, events: seq<Event>, more: seq<Event>)
    ensures Run(b, events + more) == RunFrom(b, Run(b, events), more)
    decreases |more|
  {
    if more == [] {
      assert events + more == events;
    } else {
      var longer := events + [more[0]];
      assert longer[..|longer| - 1] == events;
      RunThenRunFrom(b, longer, more[1..]);
      assert events + more == longer + more[1..];
    }
  }

  lemma {:induction false} StoreIsKept(b: Builder, w: World, more: seq<Event>)
    requires forall e :: e in more ==> Internal(e)
    ensures RunFrom(b, w, more).store == w.store
    decreases |more|
  {
    if more != [] {
      assert Internal(more[0]);
      StoreIsKept(b, Apply(b, w, more[0]), more[1..]);
    }
  }

  /** Once the cluster is still, every step the feed takes brings it closer to quiet, it never gets
      stuck before, and there the browser shows the store: at the latest after Rank steps. */
  lemma FeedSettles(b: Builder, events: seq<Event>) returns (more: seq<Event>)
    requires Valid(b)
    ensures forall e :: e in more ==> Internal(e)
    ensures Quiet(Run(b, events + more))
    ensures ShowsStore(b, Run(b, events + more).client, Run(b, events).store)
  {
    more := RunSteps(b, Run(b, events));
    RunThenRunFrom(b, events, more);
    StoreIsKept(b, Run(b, events), more);
    QuietMeansInSync(b, events + more);
  }

  ghost predicate Steps(b: Builder, w: World, events: seq<Event>)
    decreases |events|
  {
    events == [] || (Internal(events[0]) && Enabled(b, w, events[0]) &&
      Steps(b, Apply(b, w, events[0]), events[1..]))
  }

  /** Whichever steps the feed takes, it takes no more than its rank before it has to be quiet. */
  lemma {:induction false} SettlingIsBounded(b: Builder, w: World, events: seq<Event>)
    requires Valid(b) && Steps(b, w, events)
    ensures |events| <= Rank(b, w)
    decreases |events|
  {
    if events != [] {
      InternalStepsLowerRank(b, w, events[0]);
      SettlingIsBounded(b, Apply(b, w, events[0]), events[1..]);
    }
  }

  // ---- a builder ----

  /** The kinds that the first listing names and no read has seen. */
  function Unseen(input: seq<Read>): set<string> {
    if |input| == 0 || !input[0].Listed? then {}
    else input[0].kinds - set r | r in input && r.Seen? :: r.kind
  }

  /** Lists the kinds, reads each informer once in any order, and makes a graph of what it found. */
  function OncePerKind(graph: seq<Read> -> Graph): Builder {
    Builder(
      (input: seq<Read>) => if |input| == 0 then {List} else set k | k in Unseen(input) :: Kind(k),
      graph,
      (s: Store, input: seq<Read>) => if |input| == 0 then |s.kinds| + 1 else |Unseen(input)|)
  }

  lemma OncePerKindIsValid(graph: seq<Read> -> Graph)
    requires forall input :: WellFormed(graph(input))
    ensures Valid(OncePerKind(graph))
  {
    var b := OncePerKind(graph);
    forall s, input, want ensures ReadsOn(b, s, input, want) {
      if want in b.wants(input) {
        var more := input + [Answer(s, want)];
        assert more[|input|] in more;
        if |input| == 0 {
          assert Unseen(more) <= s.kinds;
          NoMore(Unseen(more), s.kinds);
        } else {
          assert want.name in Unseen(input) && want.name !in Unseen(more);
          forall k | k in Unseen(more) ensures k in Unseen(input) {
            assert forall r :: r in input ==> r in more;
          }
          NoMore(Unseen(more), Unseen(input) - {want.name});
        }
      }
    }
  }

  lemma NoMore(a: set<string>, c: set<string>)
    requires a <= c
    ensures |a| <= |c|
  {
    assert c == a + (c - a);
  }
}
