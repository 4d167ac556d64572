/**
 web/src/api.ts: watchedEventSource re-creates an event stream that has gone silent, with one staleness
 timer, a growing delay between attempts, and a generation that silences superseded connections.
 */
module WatchedSource {
  import opened Prelude

  const SSE_STALE_MS := 40000.0
  const SSE_BACKOFF_MAX_MS := 120000.0

  datatype Signal = Opened | Ping | Message | Failed

  /** `timers` are the pending timeouts with their delays, `timer` the handle of the last one set;
      connections are numbered by the generation that made them and `connections` are those not closed. */
  datatype Watch = Watch(gen: nat, connections: set<nat>, timers: map<nat, real>, timer: Option<nat>, nextTimer: nat,
                         backoff: real, closed: bool)

  function MinReal(a: real, b: real): real {
    if a < b then a else b
  }

  function Arm(w: Watch, ms: real): Watch {
    var kept := if w.timer.Some? then w.timers - {w.timer.value} else w.timers;
    w.(timers := kept[w.nextTimer := ms], timer := Some(w.nextTimer), nextTimer := w.nextTimer + 1)
  }

  function Alive(w: Watch): Watch {
    Arm(w.(backoff := SSE_STALE_MS), SSE_STALE_MS)
  }

  function Connect(w: Watch): Watch {
    w.(gen := w.gen + 1, connections := w.connections - {w.gen} + {w.gen + 1})
  }

  function GrownBackoff(backoff: real): real {
    MinReal(backoff * 1.5, SSE_BACKOFF_MAX_MS)
  }

  /** The jittered delay before the next attempt; `random` is Math.random(). */
  function Delay(backoff: real, random: real): real {
    MinReal(backoff * (0.8 + random * 0.4), SSE_BACKOFF_MAX_MS)
  }

  function Reconnect(w: Watch, random: real): Watch {
    if w.closed then w
    else
      var backoff := GrownBackoff(w.backoff);
      Connect(Arm(w.(backoff := backoff), Delay(backoff, random)))
  }

  function Close(w: Watch): Watch {
    w.(closed := true, connections := w.connections - {w.gen},
       timers := if w.timer.Some? then w.timers - {w.timer.value} else w.timers)
  }

  const Fresh := Arm(Connect(Watch(0, {}, map[], None, 0, SSE_STALE_MS, false)), SSE_STALE_MS)

  datatype Event =
    | Hear(gen: nat, signal: Signal)      // any connection ever made calls one of its listeners
    | Expire(id: nat, random: real)       // a pending timeout fires
    | Visible                             // the tab comes back while the listener is attached
    | Stop                                // the caller closes the stream

  predicate Enabled(w: Watch, e: Event) {
    match e
    case Hear(g, _) => 1 <= g <= w.gen
    case Expire(id, random) => id in w.timers && 0.0 <= random < 1.0
    case Visible => !w.closed
    case Stop => true
  }

  predicate IsCurrent(w: Watch, g: nat) {
    !w.closed && g == w.gen
  }

  /** Whether the caller's handler is called. */
  predicate Handled(w: Watch, e: Event) {
    e.Hear? && Enabled(w, e) && IsCurrent(w, e.gen) && !e.signal.Ping?
  }

  function Apply(w: Watch, e: Event): Watch {
    if !Enabled(w, e) then w else
    match e
    case Hear(g, signal) => if IsCurrent(w, g) && !signal.Failed? then Alive(w) else w
    case Expire(id, random) => Reconnect(w.(timers := w.timers - {id}), random)
    case Visible => Arm(w, SSE_STALE_MS)
    case Stop => Close(w)
  }

  function Run(events: seq<Event>): Watch {
    if events == [] then Fresh else Apply(Run(events[..|events| - 1]), events[|events| - 1])
  }

  /** The closure variables of watchedEventSource. */
  class WatchedEventSource {
    var gen: nat
    var connections: set<nat>
    var timers: map<nat, real>
    var timer: Option<nat>
    var nextTimer: nat
    var backoff: real
    var closed: bool

    ghost function State(): Watch
      reads this
    {
      Watch(gen, connections, timers, timer, nextTimer, backoff, closed)
    }

    constructor ()
      ensures State() == Fresh
    {
      gen, connections, timers, timer, nextTimer, backoff, closed := 0, {}, map[], None, 0, SSE_STALE_MS, false;
      new;
      DoConnect();
      DoArm(SSE_STALE_MS);
    }

    method DoArm(ms: real)
      modifies this`timers, this`timer, this`nextTimer
      ensures State() == Arm(old(State()), ms)
    {
      if timer.Some? {
        timers := timers - {timer.value};
      }
      timers, timer, nextTimer := timers[nextTimer := ms], Some(nextTimer), nextTimer + 1;
    }

    method DoConnect()
      modifies this`gen, this`connections
      ensures State() == Connect(old(State()))
    {
      gen := gen + 1;
      connections := connections - {gen - 1};
      connections := connections + {gen};
    }

    method OnSignal(g: nat, signal: Signal) returns (handled: bool)
      requires 1 <= g <= gen
      modifies this
      ensures State() == Apply(old(State()), Hear(g, signal))
      ensures handled <==> Handled(old(State()), Hear(g, signal))
    {
      if closed || g != gen {
        return false;
      }
      if !signal.Failed? {
        backoff := SSE_STALE_MS;
        DoArm(SSE_STALE_MS);
      }
      handled := !signal.Ping?;
    }

    method OnExpire(id: nat, random: real)
      requires id in timers && 0.0 <= random < 1.0
      modifies this
      ensures State() == Apply(old(State()), Expire(id, random))
    {
      timers := timers - {id};
      if closed {
        return;
      }
      backoff := GrownBackoff(backoff);
      DoArm(Delay(backoff, random));
      DoConnect();
    }

    method OnVisible()
      modifies this
      ensures State() == Apply(old(State()), Visible)
    {
      if !closed {
        DoArm(SSE_STALE_MS);
      }
    }

    method DoClose()
      modifies this
      ensures State() == Apply(old(State()), Stop)
    {
      closed := true;
      if timer.Some? {
        timers := timers - {timer.value};
      }
      connections := connections - {gen};
    }
  }

  // ---- every run ----

  /** While open, exactly one timer is pending, the last one set, and exactly one connection, the latest;
      after close there is neither. */
  ghost predicate OneTimer(w: Watch) {
    && w.gen >= 1
    && w.timer.Some? && w.timer.value < w.nextTimer
    && w.timers.Keys == (if w.closed then {} else {w.timer.value})
    && w.connections == (if w.closed then {} else {w.gen})
    && SSE_STALE_MS <= w.backoff <= SSE_BACKOFF_MAX_MS
  }

  lemma {:induction false} AlwaysOneTimer(events: seq<Event>)
    ensures OneTimer(Run(events))
  {
    if events == [] {
      assert Fresh.timers.Keys == {0} && Fresh.connections == {1};
    } else {
      var w, e := Run(events[..|events| - 1]), events[|events| - 1];
      AlwaysOneTimer(events[..|events| - 1]);
      if Enabled(w, e) {
        assert w.timers.Keys - {w.timer.value} == {};
        assert Apply(w, e).timers.Keys == (if Apply(w, e).closed then {} else {Apply(w, e).timer.value});
      }
    }
  }

  lemma {:induction false} GenerationsOnlyGrow(events: seq<Event>, i: nat)
    requires i <= |events|
    ensures Run(events[..i]).gen <= Run(events).gen
    ensures Run(events[..i]).closed ==> Run(events).closed
  {
    if i == |events| {
      assert events[..i] == events;
    } else {
      var init := events[..|events| - 1];
      assert init[..i] == events[..i];
      GenerationsOnlyGrow(init, i);
    }
  }

  /** Once a connection is superseded or the stream is closed, nothing the connection says ever reaches
      a handler, the timer or the backoff again. */
  lemma SupersededStaysSilent(events: seq<Event>, i: nat, j: nat)
    requires i <= j < |events| && events[j].Hear?
    requires Run(events[..i]).closed || events[j].gen < Run(events[..i]).gen
    ensures !Handled(Run(events[..j]), events[j])
    ensures Run(events[..j + 1]) == Run(events[..j])
  {
    assert events[..j][..i] == events[..i];
    GenerationsOnlyGrow(events[..j], i);
    assert events[..j + 1][..j] == events[..j];
  }

  lemma DelayBounds(backoff: real, random: real)
    requires SSE_STALE_MS <= backoff <= SSE_BACKOFF_MAX_MS && 0.0 <= random < 1.0
    ensures 48000.0 <= Delay(GrownBackoff(backoff), random) <= SSE_BACKOFF_MAX_MS
  {
    var grown := GrownBackoff(backoff);
    assert 60000.0 <= grown;
    assert grown * (0.8 + random * 0.4) == grown * 0.8 + grown * (random * 0.4);
    assert grown * (random * 0.4) >= 0.0;
  }

  /** Every delay armed by a reconnect lies between 48 and 120 seconds, in every run. */
  lemma ReconnectDelays(events: seq<Event>, id: nat, random: real)
    requires Enabled(Run(events), Expire(id, random))
    ensures
      var w := Run(events + [Expire(id, random)]);
      && w.timer.Some? && w.timer.value in w.timers
      && 48000.0 <= w.timers[w.timer.value] <= SSE_BACKOFF_MAX_MS
  {
    AlwaysOneTimer(events);
    assert (events + [Expire(id, random)])[..|events|] == events;
    DelayBounds(Run(events).backoff, random);
  }

  /** In an outage only the timer is heard. */
  ghost predicate Outage(events: seq<Event>, from: nat)
    requires from <= |events|
  {
    forall i :: from <= i < |events| ==> events[i].Expire? && Enabled(Run(events[..i]), events[i])
  }

  /** From the last sign of life on, each silent attempt multiplies the backoff by one and a half up to
      the ceiling, which the third attempt reaches. */
  lemma {:induction false} OutageBackoff(events: seq<Event>, from: nat)
    requires from <= |events| && Outage(events, from) && Run(events[..from]).backoff == SSE_STALE_MS
    requires !Run(events[..from]).closed
    ensures !Run(events).closed
    ensures Run(events).gen == Run(events[..from]).gen + (|events| - from)
    ensures Run(events).backoff
            == match |events| - from
               case 0 => 40000.0
               case 1 => 60000.0
               case 2 => 90000.0
               case _ => 120000.0
  {
    if from == |events| {
      assert events[..from] == events;
    } else {
      var init := events[..|events| - 1];
      assert init[..from] == events[..from];
      forall i | from <= i < |init| ensures init[i].Expire? && Enabled(Run(init[..i]), init[i]) {
        assert init[..i] == events[..i];
      }
      OutageBackoff(init, from);
    }
  }

  // ---- signs of life ----

  lemma RunOn(events: seq<Event>, e: Event)
    ensures Run(events + [e]) == Apply(Run(events), e)
  {
    assert (events + [e])[..|events|] == events;
  }

  /** The delay of the one pending timer. */
  function Armed(w: Watch): Option<real> {
    if w.timer.Some? then Get(w.timers, w.timer.value) else None
  }

  /** The current connection of an open stream says anything but an error. */
  predicate SignOfLife(w: Watch, e: Event) {
    e.Hear? && !w.closed && e.gen == w.gen && !e.signal.Failed?
  }

  /** It resets the backoff and grants a fresh deadline of 40 seconds. */
  lemma LifeResets(events: seq<Event>, e: Event)
    requires SignOfLife(Run(events), e)
    ensures
      var w, v := Run(events), Run(events + [e]);
      && v.backoff == 40000.0 && Armed(v) == Some(40000.0)
      && v.gen == w.gen && v.connections == w.connections && !v.closed
  {
    AlwaysOneTimer(events);
    RunOn(events, e);
  }

  /** An error leaves everything to the connection's own retry. */
  lemma ErrorsChangeNothing(events: seq<Event>, g: nat)
    ensures Run(events + [Hear(g, Failed)]) == Run(events)
  {
    RunOn(events, Hear(g, Failed));
  }

  /** A returning tab gets a fresh deadline and keeps its backoff. */
  lemma ReturnGrantsGrace(events: seq<Event>)
    requires !Run(events).closed
    ensures
      var w, v := Run(events), Run(events + [Visible]);
      Armed(v) == Some(40000.0) && v.backoff == w.backoff && v.gen == w.gen && v.connections == w.connections
  {
    RunOn(events, Visible);
  }

  /** The handler hears everything the current connection says but pings. */
  lemma HandledExactly(events: seq<Event>, g: nat, signal: Signal)
    requires 1 <= g <= Run(events).gen
    ensures Handled(Run(events), Hear(g, signal)) <==>
            !Run(events).closed && g == Run(events).gen && (signal.Opened? || signal.Message? || signal.Failed?)
  {
  }

  /** The delay is the backoff, jittered by a fifth either way and cut at 120 seconds. */
  lemma DelayIsJittered(backoff: real, random: real)
    ensures Delay(backoff, random) <= 120000.0
    ensures backoff * (0.8 + random * 0.4) <= 120000.0 ==> Delay(backoff, random) == backoff * (0.8 + random * 0.4)
    ensures backoff * (0.8 + random * 0.4) >= 120000.0 ==> Delay(backoff, random) == 120000.0
  {
  }

  lemma ExpiryArms(w: Watch, id: nat, random: real)
    requires OneTimer(w) && !w.closed && Enabled(w, Expire(id, random))
    ensures
      var v, grown := Apply(w, Expire(id, random)), if w.backoff < 80000.0 then w.backoff * 1.5 else 120000.0;
      v.backoff == grown && Armed(v) == Some(Delay(grown, random))
  {
    var grown := GrownBackoff(w.backoff);
    assert grown == if w.backoff < 80000.0 then w.backoff * 1.5 else 120000.0;
    var v := Apply(w, Expire(id, random));
    assert v == Connect(Arm(w.(timers := w.timers - {id}, backoff := grown), Delay(grown, random)));
  }

  lemma OutageAttempt(events: seq<Event>, from: nat)
    requires from < |events| && SignOfLife(Run(events[..from]), events[from]) && Outage(events, from + 1)
    ensures
      var n := |events| - (from + 1);
      && !Run(events).closed
      && Run(events).backoff == match n case 0 => 40000.0 case 1 => 60000.0 case 2 => 90000.0 case _ => 120000.0
  {
    LifeResets(events[..from], events[from]);
    assert events[..from + 1] == events[..from] + [events[from]];
    OutageBackoff(events, from + 1);
  }

  /** From a sign of life on, silent attempts find the backoff at 40, 60, 90 and then 120 seconds; each arms the
      next. */
  lemma OutageAfterLife(events: seq<Event>, from: nat, id: nat, random: real)
    requires from < |events| && SignOfLife(Run(events[..from]), events[from]) && Outage(events, from + 1)
    requires Enabled(Run(events), Expire(id, random))
    ensures
      var n := |events| - (from + 1);
      Armed(Run(events + [Expire(id, random)]))
      == Some(Delay(match n case 0 => 60000.0 case 1 => 90000.0 case _ => 120000.0, random))
  {
    OutageAttempt(events, from);
    AlwaysOneTimer(events);
    RunOn(events, Expire(id, random));
    ExpiryArms(Run(events), id, random);
  }
}
