/**
 internal/kube/store/store.go: reconcile requests are coalesced so that discoveries run one at a time;
 none is lost.
 */
module Reconcile {

  /** A loop goroutine: about to discover, discovering, or about to look at the pending flag. */
  datatype Loop = ToDiscover | Discovering | ToCheck

  datatype World = World(running: bool, pending: bool, loops: seq<Loop>)

  datatype Event = Trigger | Discover(i: nat) | Discovered(i: nat) | Check(i: nat)

  const Start := World(false, false, [])

  predicate Enabled(w: World, e: Event) {
    match e
    case Trigger => true
    case Discover(i) => i < |w.loops| && w.loops[i] == ToDiscover
    case Discovered(i) => i < |w.loops| && w.loops[i] == Discovering
    case Check(i) => i < |w.loops| && w.loops[i] == ToCheck
  }

  function Apply(w: World, e: Event): World {
    if !Enabled(w, e) then w else
    match e
    case Trigger => if w.running then w.(pending := true) else w.(running := true, loops := w.loops + [ToDiscover])
    case Discover(i) => w.(loops := w.loops[i := Discovering])
    case Discovered(i) => w.(loops := w.loops[i := ToCheck])
    case Check(i) =>
      if !w.pending then w.(running := false, loops := w.loops[..i] + w.loops[i + 1..])
      else w.(pending := false, loops := w.loops[i := ToDiscover])
  }

  function Run(events: seq<Event>): World {
    if events == [] then Start else Apply(Run(events[..|events| - 1]), events[|events| - 1])
  }

  /** The two flags of the store's cache that coalesce reconciles. `w` is the run that a call is part of. */
  class Cache {
    var reconcileRunning: bool
    var reconcilePending: bool

    ghost predicate Mirrors(w: World)
      reads this
    {
      reconcileRunning == w.running && reconcilePending == w.pending
    }

    constructor ()
      ensures Mirrors(Start)
    {
      reconcileRunning, reconcilePending := false, false;
    }

    /** The locked part of triggerReconcile; `start` is the go statement. */
    method TriggerReconcile(ghost w: World) returns (start: bool)
      requires Mirrors(w)
      modifies this
      ensures Mirrors(Apply(w, Trigger))
      ensures Apply(w, Trigger).loops == if start then w.loops + [ToDiscover] else w.loops
    {
      if reconcileRunning {
        reconcilePending := true;
        return false;
      }
      reconcileRunning := true;
      return true;
    }

    /** The locked part of a round of reconcileLoop; `again` when the loop goes round once more. */
    method EndRound(ghost w: World, ghost i: nat) returns (again: bool)
      requires Mirrors(w) && Enabled(w, Check(i))
      modifies this
      ensures Mirrors(Apply(w, Check(i)))
      ensures Apply(w, Check(i)).loops == if again then w.loops[i := ToDiscover] else w.loops[..i] + w.loops[i + 1..]
    {
      if !reconcilePending {
        reconcileRunning := false;
        return false;
      }
      reconcilePending := false;
      return true;
    }
  }

  /** One loop runs exactly while the running flag is set, and only then can a trigger be pending. */
  lemma {:induction false} AtMostOneLoop(events: seq<Event>)
    ensures
      var w := Run(events);
      |w.loops| == (if w.running then 1 else 0) && (w.pending ==> w.running)
  {
    if events != [] {
      AtMostOneLoop(events[..|events| - 1]);
    }
  }

  /** A discovery is still to start: the loop is about to, or the pending flag will send it round again. */
  predicate Guaranteed(w: World) {
    w.running && |w.loops| == 1 && (w.pending || w.loops[0] == ToDiscover)
  }

  predicate Starts(events: seq<Event>, j: int) {
    0 <= j < |events| && events[j].Discover? && Enabled(Run(events[..j]), events[j])
  }

  /** No trigger is lost: it is followed by the start of a discovery, or one is still guaranteed. */
  lemma {:induction false} NoTriggerIsLost(events: seq<Event>, i: nat)
    requires i < |events| && events[i].Trigger?
    ensures Guaranteed(Run(events)) || exists j :: i < j && Starts(events, j)
  {
    var init, e := events[..|events| - 1], events[|events| - 1];
    AtMostOneLoop(init);
    if i < |init| {
      NoTriggerIsLost(init, i);
      if j :| i < j && Starts(init, j) {
        assert init[..j] == events[..j] && Starts(events, j);
      } else if e.Discover? && Enabled(Run(init), e) {
        assert Starts(events, |init|);
      }
    }
  }

  /** How many steps the loop takes at most before the guaranteed discovery starts. */
  function Distance(w: World): nat
    requires |w.loops| == 1
  {
    match w.loops[0]
    case ToDiscover => 1
    case ToCheck => 2
    case Discovering => 3
  }

  /** The guaranteed discovery comes: every step of the loop starts it or brings it nearer, and further
      triggers do not put it off. */
  lemma GuaranteedDiscoveryComes(w: World, e: Event)
    requires Guaranteed(w) && Enabled(w, e) && !e.Discover?
    ensures Guaranteed(Apply(w, e))
    ensures Distance(Apply(w, e)) == if e.Trigger? then Distance(w) else Distance(w) - 1
  {
  }

  function Triggers(events: seq<Event>): nat {
    if events == [] then 0
    else Triggers(events[..|events| - 1]) + if events[|events| - 1].Trigger? then 1 else 0
  }

  function Discoveries(events: seq<Event>): nat {
    if events == [] then 0
    else Discoveries(events[..|events| - 1]) + if Starts(events, |events| - 1) then 1 else 0
  }

  /** The discoveries that are still to come. */
  function Due(w: World): nat {
    (if |w.loops| == 1 && w.loops[0] == ToDiscover then 1 else 0) + if w.pending then 1 else 0
  }

  /** Requests are coalesced: there is never more than one discovery for a trigger, those still to come included. */
  lemma {:induction false} NoDiscoveryUnasked(events: seq<Event>)
    ensures Discoveries(events) + Due(Run(events)) <= Triggers(events)
  {
    if events != [] {
      NoDiscoveryUnasked(events[..|events| - 1]);
      AtMostOneLoop(events[..|events| - 1]);
    }
  }
}
