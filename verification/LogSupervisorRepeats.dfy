/**
 When the log supervisor can deliver a line again: exactly after a resolve that costs a container its record, because it
 misses the pod while the container's stream is down.
 */
module LogSupervisorRepeats {
  import opened Prelude
  import opened ReplayFilter
  import opened LogSupervisor
  import opened LogSupervisorRuns

  /** A streamer of the key that opened without a record and has read the first `n` lines of the log, all of which it
      delivered after `before`. */
  ghost predicate Reading(w: World, k: Key, sid: nat, log: seq<Line>, before: seq<Line>, n: nat)
    requires n <= |log|
  {
    && StreamerOf(w, k, sid) && w.live[sid].snapshot == Some(None) && w.live[sid].read == log[..n]
    && LogOf(w, k) == log && DeliveredOf(w, k) == before + log[..n]
  }

  lemma PrefixWithin(log: seq<Line>, n: nat)
    requires n <= |log|
    ensures StampedWithin(multiset(log[..n]), multiset(log))
  {
    assert log == log[..n] + log[n..];
    forall l ensures Within(multiset(log[..n]), multiset(log), l) {
      assert multiset(log)[l] == multiset(log[..n])[l] + multiset(log[n..])[l];
    }
  }

  lemma ReadNext(w: World, k: Key, sid: nat, log: seq<Line>, before: seq<Line>, n: nat)
    requires n < |log| && Reading(w, k, sid, log, before, n)
    ensures Enabled(w, Read(sid, log[n])) && Reading(Apply(w, Read(sid, log[n])), k, sid, log, before, n + 1)
  {
    assert log[..n + 1] == log[..n] + [log[n]];
    PrefixWithin(log, n + 1);
    assert before + log[..n] + [log[n]] == before + log[..n + 1];
  }

  /** The streamer reads the rest of the log. */
  lemma {:induction false} ReadRest(events: seq<Event>, k: Key, sid: nat, log: seq<Line>, before: seq<Line>, n: nat)
    returns (more: seq<Event>)
    requires n <= |log| && Reading(Run(events), k, sid, log, before, n)
    ensures DeliveredOf(Run(events + more), k) == before + log && LogOf(Run(events + more), k) == log
    ensures forall e :: e in more ==> e.Read?
    decreases |log| - n
  {
    if n == |log| {
      more := [];
      assert events + [] == events && log[..n] == log;
    } else {
      var e := Read(sid, log[n]);
      ReadNext(Run(events), k, sid, log, before, n);
      RunSnoc(events, e);
      var rest := ReadRest(events + [e], k, sid, log, before, n + 1);
      more := [e] + rest;
      assert events + more == events + [e] + rest;
    }
  }

  /** Attaches to any container. */
  function AnyTarget(k: Key): Target {
    Target(k, false, false, 0)
  }

  /** The pod is found again, its container attached to and its stream opened: without a record. */
  function ComeBack(k: Key, sid: nat): seq<Event> {
    [Resolve(Some({k.uid})), Attach(AnyTarget(k)), Event.Open(sid)]
  }

  lemma ComesBack(w: World, k: Key)
    requires Sound(w) && k !in w.sup.streaming && k !in w.sup.resumes && !Terminal(w.sup, k)
    ensures
      var a := Apply(w, Resolve(Some({k.uid})));
      var b := Apply(a, Attach(AnyTarget(k)));
      var c := Apply(b, Event.Open(w.next));
      Reading(c, k, w.next, LogOf(w, k), DeliveredOf(w, k), 0) && c.next == w.next + 1
  {
    var a := Apply(w, Resolve(Some({k.uid})));
    assert Enabled(a, Attach(AnyTarget(k)));
    var b := Apply(a, Attach(AnyTarget(k)));
    assert b.live[w.next].snapshot == None && b.heap[w.next] == None;
    assert DeliveredOf(w, k) + [] == DeliveredOf(w, k);
  }

  lemma RunComesBack(events: seq<Event>, k: Key)
    requires var w := Run(events); k !in w.sup.streaming && k !in w.sup.resumes && !Terminal(w.sup, k)
    ensures
      var w := Run(events);
      var v := Run(events + ComeBack(k, w.next));
      Reading(v, k, w.next, LogOf(w, k), DeliveredOf(w, k), 0) && v.next == w.next + 1
  {
    var w := Run(events);
    var back := ComeBack(k, w.next);
    RunIsSound(events);
    ComesBack(w, k);
    RunSnoc(events, back[0]);
    RunSnoc(events + [back[0]], back[1]);
    RunSnoc(events + [back[0]] + [back[1]], back[2]);
    assert events + back == events + [back[0]] + [back[1]] + [back[2]];
  }

  /** Events that cost the key nothing in any state. */
  ghost predicate Harmless(e: Event, k: Key) {
    e.Resolve? ==> k.uid in Present(e.pods)
  }

  lemma HarmlessIsSpared(events: seq<Event>, more: seq<Event>, k: Key)
    requires forall e :: e in more ==> Harmless(e, k)
    ensures SparedFrom(events + more, |events|, k)
  {
    forall i | |events| <= i < |events + more| ensures SparedAt(events + more, i, k) {
      assert (events + more)[i] == more[i - |events|] && Harmless(more[i - |events|], k);
    }
  }

  /** A resolve that costs the key its record leaves it idle, without a record, and with something delivered. */
  lemma Forgotten(events: seq<Event>, e: Event, k: Key) returns (l: Line)
    requires SparedFrom(events, 0, k) && !Spares(Run(events), e, k)
    ensures
      var v := Apply(Run(events), e);
      && k !in v.sup.streaming && k !in v.sup.resumes && !Terminal(v.sup, k)
      && l.time.Some? && l in DeliveredOf(v, k)
  {
    var w := Run(events);
    RunKeepsKeyExact(events, k);
    RunIsSound(events);
    assert TerminalIsQuiet(w, k);
    var r := RecordOf(w, k).value;
    var text :| Line(Some(r.stamp), text) in multiset(DeliveredOf(w, k));
    l := Line(Some(r.stamp), text);
  }

  lemma TwiceIsTooOften(log: seq<Line>, before: seq<Line>, l: Line)
    requires l.time.Some? && l in before
    ensures !StampedWithin(multiset(before + log), multiset(log))
  {
    assert multiset(before + log)[l] == multiset(before)[l] + multiset(log)[l];
    assert !Within(multiset(before + log), multiset(log), l);
  }

  /** Then the run can go on, with no further loss, to deliver a stamped line more often than the log holds it. */
  lemma ForgettingCanRepeat(events: seq<Event>, e: Event, k: Key) returns (more: seq<Event>)
    requires SparedFrom(events, 0, k) && !Spares(Run(events), e, k)
    ensures SparedFrom(events + [e] + more, |events| + 1, k) && !DeliveredWithin(Run(events + [e] + more), k)
  {
    var l := Forgotten(events, e, k);
    RunSnoc(events, e);
    var start := events + [e];
    var v := Run(start);
    var back := ComeBack(k, v.next);
    RunComesBack(start, k);
    var tail := ReadRest(start + back, k, v.next, LogOf(v, k), DeliveredOf(v, k), 0);
    more := back + tail;
    assert start + more == start + back + tail;
    TwiceIsTooOften(LogOf(v, k), DeliveredOf(v, k), l);
    forall f | f in more ensures Harmless(f, k) {
      assert f in back || f in tail;
    }
    HarmlessIsSpared(start, more, k);
  }

  lemma SparedAlike(events: seq<Event>, more: seq<Event>, i: nat, k: Key)
    requires i < |events|
    ensures SparedAt(events + more, i, k) <==> SparedAt(events, i, k)
  {
    assert (events + more)[..i] == events[..i];
  }

  lemma SparedAtNext(events: seq<Event>, e: Event, k: Key)
    ensures SparedAt(events + [e], |events|, k) <==> Spares(Run(events), e, k)
  {
    assert (events + [e])[..|events|] == events;
  }

  lemma SparedOn(events: seq<Event>, e: Event, more: seq<Event>, k: Key)
    requires SparedFrom(events, 0, k) && Spares(Run(events), e, k)
    requires SparedFrom(events + [e] + more, |events| + 1, k)
    ensures SparedFrom(events + [e] + more, 0, k)
  {
    SparedAtNext(events, e, k);
    forall i | 0 <= i < |events + [e] + more| ensures SparedAt(events + [e] + more, i, k) {
      if i <= |events| {
        SparedAlike(events + [e], more, i, k);
        if i < |events| {
          SparedAlike(events, [e], i, k);
        }
      }
    }
  }

  ghost predicate StaysWithin(events: seq<Event>, more: seq<Event>, k: Key) {
    SparedFrom(events + more, |events|, k) ==> DeliveredWithin(Run(events + more), k)
  }

  /** At the first step that might cost a container its record: nothing stamped is ever delivered twice from there on,
      however the run continues without such a loss, exactly when that step spares it. */
  lemma AtMostOnceIffSpared(events: seq<Event>, e: Event, k: Key)
    requires SparedFrom(events, 0, k)
    ensures Spares(Run(events), e, k) <==> forall more :: StaysWithin(events + [e], more, k)
  {
    if Spares(Run(events), e, k) {
      forall more ensures StaysWithin(events + [e], more, k) {
        if SparedFrom(events + [e] + more, |events + [e]|, k) {
          SparedOn(events, e, more, k);
          DeliveredAtMostOnce(events + [e] + more, k);
        }
      }
    } else {
      var more := ForgettingCanRepeat(events, e, k);
      assert !StaysWithin(events + [e], more, k);
    }
  }

  // ---- a run that repeats ----

  /** The one line of a log is delivered, the stream ends, and then the pod is missed. */
  function MissedRun(k: Key, l: Line): seq<Event> {
    [Grow(k, l)] + ComeBack(k, 0) + [Read(0, l)] + [End(0, false)] + [Resolve(Some({}))]
  }

  lemma FirstRead(k: Key, l: Line)
    ensures
      var w := Run([Grow(k, l)] + ComeBack(k, 0) + [Read(0, l)]);
      Reading(w, k, 0, [l], [], 1) && w.next == 1
  {
    var grown: seq<Event> := [Grow(k, l)];
    assert [] + grown == grown;
    RunSnoc([], Grow(k, l));
    RunComesBack(grown, k);
    ReadNext(Run(grown + ComeBack(k, 0)), k, 0, [l], [], 0);
    RunSnoc(grown + ComeBack(k, 0), Read(0, l));
  }

  lemma MissedIsForgotten(k: Key, l: Line)
    ensures
      var w := Run(MissedRun(k, l));
      && k !in w.sup.streaming && k !in w.sup.resumes && !Terminal(w.sup, k) && w.next == 1
      && DeliveredOf(w, k) == [l] && LogOf(w, k) == [l]
  {
    var first := [Grow(k, l)] + ComeBack(k, 0) + [Read(0, l)];
    FirstRead(k, l);
    RunIsSound(first);
    assert StreamerClaims(Run(first), 0) && TerminalIsQuiet(Run(first), k);
    RunSnoc(first, End(0, false));
    RunSnoc(first + [End(0, false)], Resolve(Some({})));
  }

  /** Found again, the pod's container delivers its one line a second time. */
  lemma MissedPodRepeats(k: Key, l: Line)
    ensures
      var w := Run(MissedRun(k, l) + ComeBack(k, 1) + [Read(1, l)]);
      LogOf(w, k) == [l] && DeliveredOf(w, k) == [l, l]
  {
    var missed := MissedRun(k, l);
    MissedIsForgotten(k, l);
    RunComesBack(missed, k);
    ReadNext(Run(missed + ComeBack(k, 1)), k, 1, [l], [l], 0);
    RunSnoc(missed + ComeBack(k, 1), Read(1, l));
  }
}
