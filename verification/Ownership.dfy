/**
 internal/kube/graph/build.go, edges.go and filter.go: which nodes are marked loggable by walking up
 from the authorized pods, and which pods the logs of a node resolve to by walking down its owner edges.
 */
module Ownership {
  import opened Prelude

  datatype Owner = Owner(uid: string, controller: bool)

  /** What the typed struct of an object adds; objects kept unstructured are OtherBody. */
  datatype Body =
    | ReplicaSetBody(specReplicas: Option<int>, statusReplicas: int)
    | PodBody(succeeded: bool)
    | ConfigMapBody
    | OtherBody

  datatype Object = Object(uid: string, kind: string, ns: string, name: string, owners: seq<Owner>, body: Body)

  predicate HasController(o: Object) {
    exists i :: 0 <= i < |o.owners| && o.owners[i].controller
  }

  predicate IsHistorical(o: Object, keepCompletedPods: bool) {
    match o.body
    case ReplicaSetBody(spec, status) => spec == Some(0) && status == 0 && HasController(o)
    case PodBody(succeeded) => !keepCompletedPods && succeeded && HasController(o)
    case _ => false
  }

  predicate IsAutoInjectedNoise(o: Object) {
    o.body.ConfigMapBody? && o.name == "kube-root-ca.crt"
  }

  predicate ExcludedFromBuild(o: Object, keepCompletedPods: bool) {
    IsHistorical(o, keepCompletedPods) || IsAutoInjectedNoise(o)
  }

  /** Of the pods only the displayed graph leaves some out: those that succeeded under a controller. */
  lemma PodsOnFields(o: Object, succeeded: bool, keepCompletedPods: bool)
    requires o.body == PodBody(succeeded)
    ensures ExcludedFromBuild(o, keepCompletedPods)
       <==> !keepCompletedPods && succeeded && exists i :: 0 <= i < |o.owners| && o.owners[i].controller
  {
  }

  function OwnerUIDs(o: Object): (r: seq<string>)
    ensures |r| == |o.owners|
  {
    seq(|o.owners|, i requires 0 <= i < |o.owners| => o.owners[i].uid)
  }

  // ---- the walk up: loggableUIDs ----

  function ByUID(objs: seq<Object>): (m: map<string, Object>)
    ensures forall uid :: uid in m ==> uid != "" && m[uid] in objs && m[uid].uid == uid
    ensures forall o :: o in objs && o.uid != "" ==> o.uid in m
  {
    if objs == [] then map[]
    else
      var m, o := ByUID(objs[..|objs| - 1]), objs[|objs| - 1];
      if o.uid == "" then m else m[o.uid := o]
  }

  predicate Live(byUID: map<string, Object>, uid: string) {
    uid in byUID && !ExcludedFromBuild(byUID[uid], true)
  }

  /** One step up: from a live object to a live owner. */
  predicate UpStep(byUID: map<string, Object>, x: string, y: string) {
    Live(byUID, x) && Live(byUID, y) && y in OwnerUIDs(byUID[x])
  }

  ghost predicate UpPath(byUID: map<string, Object>, p: seq<string>) {
    && p != [] && Live(byUID, p[0])
    && forall i :: 0 < i < |p| ==> UpStep(byUID, p[i - 1], p[i])
  }

  /** A live source pod has `uid` above it. */
  ghost predicate SeenFrom(byUID: map<string, Object>, sources: set<string>, uid: string) {
    exists p :: UpPath(byUID, p) && p[0] in sources && p[|p| - 1] == uid
  }

  function SourceUIDs(sources: seq<Object>): set<string> {
    set o | o in sources && o.kind == "Pod" && o.uid != "" :: o.uid
  }

  /** Once visited, a live object's owners are visited or still on the stack. */
  ghost predicate OwnersNoted(byUID: map<string, Object>, loggable: map<string, bool>, stack: seq<string>, x: string) {
    x in byUID && x in loggable && loggable[x] ==>
      forall y :: y in OwnerUIDs(byUID[x]) && y != "" ==> y in loggable || y in stack
  }

  ghost predicate Justified(byUID: map<string, Object>, sources: set<string>, loggable: map<string, bool>, x: string) {
    x in loggable ==> (loggable[x] <==> Live(byUID, x)) && (loggable[x] ==> SeenFrom(byUID, sources, x))
  }

  /** What is on the stack will be seen from a source if it is live. */
  ghost predicate Promising(byUID: map<string, Object>, sources: set<string>, stack: seq<string>, x: string) {
    x in stack && Live(byUID, x) ==> SeenFrom(byUID, sources, x)
  }

  ghost predicate SourceNoted(sources: set<string>, loggable: map<string, bool>, stack: seq<string>, x: string) {
    x in sources ==> x in loggable || x in stack
  }

  lemma SeenFromOwner(byUID: map<string, Object>, sources: set<string>, x: string, y: string)
    requires SeenFrom(byUID, sources, x) && UpStep(byUID, x, y)
    ensures SeenFrom(byUID, sources, y)
  {
    var p :| UpPath(byUID, p) && p[0] in sources && p[|p| - 1] == x;
    assert UpPath(byUID, p + [y]);
  }

  /** The state of the walk: `loggable` holds what was visited. */
  ghost predicate Walking(byUID: map<string, Object>, sources: set<string>, loggable: map<string, bool>,
                          stack: seq<string>)
  {
    && "" !in byUID
    && (forall x :: SourceNoted(sources, loggable, stack, x))
    && (forall x :: Promising(byUID, sources, stack, x))
    && (forall x :: Justified(byUID, sources, loggable, x))
    && (forall x :: OwnersNoted(byUID, loggable, stack, x))
  }

  lemma WalkStarts(byUID: map<string, Object>, sources: set<string>, stack: seq<string>)
    requires "" !in byUID && forall x :: x in stack <==> x in sources
    ensures Walking(byUID, sources, map[], stack)
  {
    forall x ensures Promising(byUID, sources, stack, x) {
      assert Live(byUID, x) ==> UpPath(byUID, [x]);
    }
  }

  lemma VisitSeen(byUID: map<string, Object>, sources: set<string>, loggable: map<string, bool>, stack: seq<string>,
                  uid: string)
    requires Walking(byUID, sources, loggable, stack + [uid]) && uid in loggable
    ensures Walking(byUID, sources, loggable, stack)
  {
    assert forall x :: x in stack + [uid] <==> x in stack || x == uid;
    forall x ensures OwnersNoted(byUID, loggable, stack, x) {
      assert OwnersNoted(byUID, loggable, stack + [uid], x);
    }
    forall x ensures SourceNoted(sources, loggable, stack, x) && Promising(byUID, sources, stack, x) {
      assert SourceNoted(sources, loggable, stack + [uid], x) && Promising(byUID, sources, stack + [uid], x);
    }
  }

  lemma VisitNew(byUID: map<string, Object>, sources: set<string>, loggable: map<string, bool>, stack: seq<string>,
                 uid: string, pushed: seq<string>)
    requires Walking(byUID, sources, loggable, stack + [uid]) && uid !in loggable
    requires forall y :: y in pushed <==> Live(byUID, uid) && y in OwnerUIDs(byUID[uid]) && y != ""
    ensures Walking(byUID, sources, loggable[uid := Live(byUID, uid)], stack + pushed)
  {
    var after := loggable[uid := Live(byUID, uid)];
    assert forall x :: x in stack + [uid] <==> x in stack || x == uid;
    assert forall x :: x in stack + pushed <==> x in stack || x in pushed;
    assert Promising(byUID, sources, stack + [uid], uid);
    forall x ensures SourceNoted(sources, after, stack + pushed, x) && Promising(byUID, sources, stack + pushed, x) {
      assert SourceNoted(sources, loggable, stack + [uid], x) && Promising(byUID, sources, stack + [uid], x);
      if x in pushed && Live(byUID, x) {
        SeenFromOwner(byUID, sources, uid, x);
      }
    }
    forall x ensures Justified(byUID, sources, after, x) {
      assert Justified(byUID, sources, loggable, x);
    }
    forall x ensures OwnersNoted(byUID, after, stack + pushed, x) {
      assert OwnersNoted(byUID, loggable, stack + [uid], x);
    }
  }

  lemma {:induction false} WalkedPath(byUID: map<string, Object>, sources: set<string>, loggable: map<string, bool>,
                                      p: seq<string>)
    requires Walking(byUID, sources, loggable, []) && UpPath(byUID, p) && p[0] in sources
    ensures p[|p| - 1] in loggable && loggable[p[|p| - 1]]
  {
    var y := p[|p| - 1];
    assert Justified(byUID, sources, loggable, y) && SourceNoted(sources, loggable, [], p[0]);
    if |p| > 1 {
      var init, x := p[..|p| - 1], p[|p| - 2];
      assert UpPath(byUID, init) by {
        assert forall i :: 0 < i < |init| ==> UpStep(byUID, p[i - 1], p[i]);
      }
      WalkedPath(byUID, sources, loggable, init);
      assert x == init[|init| - 1] && UpStep(byUID, x, y);
      assert OwnersNoted(byUID, loggable, [], x);
    }
  }

  lemma WalkEnds(byUID: map<string, Object>, sources: set<string>, loggable: map<string, bool>)
    requires Walking(byUID, sources, loggable, [])
    ensures forall x :: (x in loggable && loggable[x]) <==> SeenFrom(byUID, sources, x)
  {
    forall x ensures (x in loggable && loggable[x]) <==> SeenFrom(byUID, sources, x) {
      assert Justified(byUID, sources, loggable, x);
      if SeenFrom(byUID, sources, x) {
        var p :| UpPath(byUID, p) && p[0] in sources && p[|p| - 1] == x;
        WalkedPath(byUID, sources, loggable, p);
      }
    }
  }

  /** All UIDs a walk can come across. */
  function Mentioned(objs: seq<Object>): set<string> {
    (set o | o in objs :: o.uid) + (set o, y | o in objs && y in OwnerUIDs(o) :: y)
  }

  method SourceStack(sources: seq<Object>) returns (stack: seq<string>)
    ensures forall x :: x in stack <==> x in SourceUIDs(sources)
  {
    stack := [];
    for i := 0 to |sources|
      invariant forall x :: x in stack <==> x in SourceUIDs(sources[..i])
    {
      assert sources[..i + 1] == sources[..i] + [sources[i]];
      if sources[i].kind == "Pod" && sources[i].uid != "" {
        stack := stack + [sources[i].uid];
      }
    }
    assert sources[..|sources|] == sources;
  }

  method OwnersToVisit(o: Object) returns (pushed: seq<string>)
    ensures forall y :: y in pushed <==> y in OwnerUIDs(o) && y != ""
  {
    pushed := [];
    for i := 0 to |o.owners|
      invariant forall y :: y in pushed <==> y in OwnerUIDs(o)[..i] && y != ""
    {
      assert OwnerUIDs(o)[..i + 1] == OwnerUIDs(o)[..i] + [o.owners[i].uid];
      if o.owners[i].uid != "" {
        pushed := pushed + [o.owners[i].uid];
      }
    }
    assert OwnerUIDs(o)[..|o.owners|] == OwnerUIDs(o);
  }

  /** Marks exactly the UIDs of live objects that have an authorized pod below them; cyclic ownership
      included, it terminates. */
  method LoggableUIDs(objs: seq<Object>, sourcePods: seq<Object>) returns (loggable: map<string, bool>)
    ensures forall x :: (x in loggable && loggable[x]) <==>
              SeenFrom(ByUID(objs + sourcePods), SourceUIDs(sourcePods), x)
  {
    var byUID, sources := ByUID(objs + sourcePods), SourceUIDs(sourcePods);
    if |sourcePods| == 0 {
      assert sources == {};
      return map[];
    }
    var stack := SourceStack(sourcePods);
    loggable := WalkUp(byUID, stack, sources, Mentioned(objs + sourcePods));
  }

  ghost predicate OwnersWithin(byUID: map<string, Object>, universe: set<string>) {
    forall x, y :: x in byUID && y in OwnerUIDs(byUID[x]) ==> y in universe
  }

  ghost predicate StackWithin(stack: seq<string>, universe: set<string>) {
    forall x :: x in stack ==> x in universe
  }

  lemma PushedWithin(byUID: map<string, Object>, rest: seq<string>, pushed: seq<string>, uid: string,
                     universe: set<string>)
    requires OwnersWithin(byUID, universe) && StackWithin(rest + [uid], universe)
    requires forall y :: y in pushed ==> Live(byUID, uid) && y in OwnerUIDs(byUID[uid])
    ensures StackWithin(rest + pushed, universe) && StackWithin(rest, universe) && uid in universe
  {
    assert uid in rest + [uid];
    forall x | x in rest ensures x in universe {
      assert x in rest + [uid];
    }
  }

  method WalkUp(byUID: map<string, Object>, start: seq<string>, ghost sources: set<string>, ghost universe: set<string>)
    returns (loggable: map<string, bool>)
    requires "" !in byUID && forall x :: x in start <==> x in sources
    requires sources <= universe && OwnersWithin(byUID, universe)
    ensures forall x :: (x in loggable && loggable[x]) <==> SeenFrom(byUID, sources, x)
  {
    loggable := map[];
    var stack := start;
    WalkStarts(byUID, sources, stack);
    while stack != []
      invariant StackWithin(stack, universe)
      invariant Walking(byUID, sources, loggable, stack)
      decreases universe - loggable.Keys, |stack|
    {
      var rest, uid := stack[..|stack| - 1], stack[|stack| - 1];
      assert stack == rest + [uid];
      stack := rest;
      if uid in loggable {
        PushedWithin(byUID, rest, [], uid, universe);
        assert rest + [] == rest;
        VisitSeen(byUID, sources, loggable, rest, uid);
        continue;
      }
      var live, pushed := Visit(byUID, uid);
      VisitNew(byUID, sources, loggable, rest, uid, pushed);
      PushedWithin(byUID, rest, pushed, uid, universe);
      ghost var left := universe - loggable.Keys;
      stack, loggable := stack + pushed, loggable[uid := live];
      assert uid in left && universe - loggable.Keys == left - {uid};
    }
    WalkEnds(byUID, sources, loggable);
  }

  /** What one stop of the walk marks and pushes. */
  method Visit(byUID: map<string, Object>, uid: string) returns (live: bool, pushed: seq<string>)
    ensures live == Live(byUID, uid)
    ensures forall y :: y in pushed <==> Live(byUID, uid) && y in OwnerUIDs(byUID[uid]) && y != ""
  {
    live, pushed := false, [];
    if uid in byUID && !ExcludedFromBuild(byUID[uid], true) {
      live := true;
      pushed := OwnersToVisit(byUID[uid]);
    }
  }
}
