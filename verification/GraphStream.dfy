/**
 internal/kube/store/store.go, the coalescing subscriber channels, and internal/api/sse.go, the variables of the
 graph stream's select loop. Each call is one step of a run of GraphSync; `w` is that run's state.
 */
module GraphStream {
  import opened GraphModel
  import opened GraphDiff
  import opened GraphState
  import opened GraphSync

  /** The subscribers of a cache; a channel of depth one is whether it holds a signal. */
  class Subscribers {
    var subs: map<nat, bool>
    var nextSub: nat

    ghost predicate Valid()
      reads this
    {
      forall id :: id in subs ==> id < nextSub
    }

    constructor ()
      ensures Valid() && subs == map[]
    {
      subs, nextSub := map[], 0;
    }

    /** A new, empty channel. */
    method Subscribe() returns (id: nat)
      requires Valid()
      modifies this
      ensures Valid() && id !in old(subs) && subs == old(subs)[id := false]
    {
      id := nextSub;
      nextSub := nextSub + 1;
      subs := subs[id := false];
    }

    method Unsubscribe(id: nat)
      requires Valid()
      modifies this
      ensures Valid() && subs == old(subs) - {id}
    {
      subs := subs - {id};
    }

    /** Leaves exactly one signal with every subscriber, whether or not one was waiting, and never blocks. */
    method Notify()
      requires Valid()
      modifies this
      ensures Valid() && subs.Keys == old(subs).Keys && forall id :: id in subs ==> subs[id]
    {
      var left := subs.Keys;
      while left != {}
        invariant Valid() && left <= subs.Keys && subs.Keys == old(subs).Keys
        invariant forall id :: id in subs && id !in left ==> subs[id]
      {
        var id :| id in left;
        if !subs[id] {
          subs := subs[id := true];
        }
        left := left - {id};
      }
    }

    /** A receive, possible when a signal waits. */
    method Take(id: nat)
      requires Valid() && id in subs && subs[id]
      modifies this
      ensures Valid() && subs == old(subs)[id := false]
    {
      subs := subs[id := false];
    }
  }

  /** The loop's variables: its channel among the subscribers, and whether the debounce timer is set. */
  class Handler {
    const changes: Subscribers
    const id: nat
    var armed: bool
    var timer: bool
    var prev: Graph

    ghost predicate Mirrors(w: World)
      reads this, changes
    {
      && changes.Valid() && id in changes.subs && changes.subs[id] == w.signal
      && armed == w.armed && timer == w.armed && prev == w.prev
    }

    constructor (subscribers: Subscribers, channel: nat, first: Graph)
      ensures changes == subscribers && id == channel && !armed && !timer && prev == first
    {
      changes, id := subscribers, channel;
      armed, timer, prev := false, false, first;
    }

    /** A change signal is received: only the first of a window sets the timer. */
    method OnChange(ghost b: Builder, ghost w: World)
      requires Mirrors(w) && Enabled(b, w, TakeSignal)
      modifies this, changes
      ensures Mirrors(Apply(b, w, TakeSignal)) && changes.subs == old(changes.subs)[id := false]
    {
      changes.Take(id);
      if !armed {
        armed := true;
        timer := true;
      }
    }

    /** The timer fires and a build begins. */
    method OnFire(ghost b: Builder, ghost w: World)
      requires Mirrors(w) && Enabled(b, w, Fire)
      modifies this
      ensures Mirrors(Apply(b, w, Fire))
    {
      timer := false;
      armed := false;
    }

    /** A build is done: the patch goes out unless it is empty. */
    method OnBuilt(next: Graph, ghost b: Builder, ghost w: World) returns (sent: seq<Message>)
      requires Mirrors(w) && Enabled(b, w, Finish) && !w.phase.first && next == b.graph(w.phase.input)
      modifies this
      ensures Mirrors(Apply(b, w, Finish)) && Apply(b, w, Finish).wire == w.wire + sent
    {
      sent := [];
      var patch := Diff(prev, next);
      if !patch.Empty() {
        sent := [Update(patch)];
      }
      prev := next;
    }
  }
}
