/**
 When the log supervisor follows a container again: what the drain marks stand for, read off the events of a run.
 */
module LogSupervisorRefusals {
  import opened Prelude
  import opened LogSupervisor
  import opened LogSupervisorRuns

  // ---- where a streamer comes from ----

  /** Event `a` attached to `t` and made the streamer `sid`. */
  ghost predicate AttachedAt(events: seq<Event>, a: nat, sid: nat, t: Target) {
    a < |events| && events[a] == Attach(t) && Run(events[..a]).next == sid && Enabled(Run(events[..a]), events[a])
  }

  ghost predicate OpenedAfter(events: seq<Event>, a: nat, sid: nat) {
    exists o :: a < o < |events| && events[o] == Event.Open(sid)
  }

  /** The streamer was made for the target it holds, and its stream is open once it has been opened. */
  ghost predicate CameFrom(events: seq<Event>, sid: nat) {
    sid in Run(events).live ==>
      exists a: nat :: AttachedAt(events, a, sid, Run(events).live[sid].target) &&
                  (Run(events).live[sid].snapshot.Some? <==> OpenedAfter(events, a, sid))
  }

  lemma AttachedStays(events: seq<Event>, e: Event, a: nat, sid: nat, t: Target)
    requires AttachedAt(events, a, sid, t)
    ensures AttachedAt(events + [e], a, sid, t)
    ensures OpenedAfter(events + [e], a, sid) <==> OpenedAfter(events, a, sid) || e == Event.Open(sid)
  {
    var more := events + [e];
    assert more[..a] == events[..a];
    if o :| a < o < |events| && events[o] == Event.Open(sid) {
      assert more[o] == Event.Open(sid);
    }
    if e == Event.Open(sid) {
      assert more[|events|] == e;
    }
  }

  /** What one step makes of a streamer. */
  lemma StepStreamer(w: World, e: Event, sid: nat)
    requires Sound(w) && sid in Apply(w, e).live
    ensures
      var v := Apply(w, e);
      if sid in w.live then
        && v.live[sid].target == w.live[sid].target
        && (v.live[sid].snapshot.Some? <==> w.live[sid].snapshot.Some? || e == Event.Open(sid))
      else e.Attach? && Enabled(w, e) && sid == w.next && v.live[sid].target == e.target && v.live[sid].snapshot.None?
  {
    assert StreamerClaims(w, sid);
  }

  lemma StepCameFrom(events: seq<Event>, e: Event, sid: nat)
    requires Sound(Run(events)) && CameFrom(events, sid)
    ensures CameFrom(events + [e], sid)
  {
    RunSnoc(events, e);
    if sid in Run(events + [e]).live {
      StepStreamer(Run(events), e, sid);
      if sid in Run(events).live {
        var t := Run(events).live[sid].target;
        var a: nat :| AttachedAt(events, a, sid, t) &&
                      (Run(events).live[sid].snapshot.Some? <==> OpenedAfter(events, a, sid));
        AttachedStays(events, e, a, sid, t);
      } else {
        assert (events + [e])[..|events|] == events;
        assert AttachedAt(events + [e], |events|, sid, e.target);
      }
    }
  }

  lemma {:induction false} StreamerCameFrom(events: seq<Event>, sid: nat)
    ensures CameFrom(events, sid)
  {
    if events != [] {
      var init, e := events[..|events| - 1], events[|events| - 1];
      StreamerCameFrom(init, sid);
      RunIsSound(init);
      StepCameFrom(init, e, sid);
      assert events == init + [e];
    }
  }

  // ---- clean ends ----

  /** `e` is the clean end of an open stream of the key, claimed when its pod and container were as `c` says. */
  ghost predicate EndsNow(w: World, e: Event, k: Key, c: Target) {
    && e.End? && e.cleanEOF && StreamerOf(w, k, e.sid)
    && w.live[e.sid].snapshot.Some? && w.live[e.sid].target == c
  }

  ghost predicate EndsClean(events: seq<Event>, i: int, k: Key, c: Target) {
    0 <= i < |events| && EndsNow(Run(events[..i]), events[i], k, c)
  }

  predicate Drains(c: Target) {
    c.terminalAtAttach || c.drainAtAttach
  }

  /** The last clean end of a stream claimed with its pod finished or its container stopped. */
  ghost predicate LastDrain(events: seq<Event>, i: int, k: Key, c: Target) {
    EndsClean(events, i, k, c) && Drains(c) && forall j, d :: i < j && EndsClean(events, j, k, d) ==> !Drains(d)
  }

  lemma EndsSnoc(events: seq<Event>, e: Event, i: int, k: Key, c: Target)
    ensures EndsClean(events + [e], i, k, c) <==>
            EndsClean(events, i, k, c) || (i == |events| && EndsNow(Run(events), e, k, c))
  {
    var more := events + [e];
    if 0 <= i < |events| {
      assert more[..i] == events[..i] && more[i] == events[i];
    } else if i == |events| {
      assert more[..i] == events;
    }
  }

  // ---- what a drain mark stands for ----

  function MarkOf(c: Target): DrainMark {
    if c.terminalAtAttach then DrainMark(true, 0) else DrainMark(false, c.gen)
  }

  /** A key is marked by its last draining end, and unmarked while there is none. */
  ghost predicate Marked(events: seq<Event>, k: Key) {
    var drained := Run(events).sup.drained;
    if k in drained then exists i, c :: LastDrain(events, i, k, c) && drained[k] == MarkOf(c)
    else forall i, c :: EndsClean(events, i, k, c) ==> !Drains(c)
  }

  lemma DrainNow(events: seq<Event>, e: Event, k: Key, c: Target)
    requires EndsNow(Run(events), e, k, c) && Drains(c)
    ensures LastDrain(events + [e], |events|, k, c)
  {
    EndsSnoc(events, e, |events|, k, c);
  }

  lemma NoDrainNow(events: seq<Event>, e: Event, k: Key)
    requires Marked(events, k) && Run(events + [e]).sup.drained == Run(events).sup.drained
    requires forall c :: EndsNow(Run(events), e, k, c) ==> !Drains(c)
    ensures Marked(events + [e], k)
  {
    forall i, c ensures EndsClean(events + [e], i, k, c) && Drains(c) <==> EndsClean(events, i, k, c) && Drains(c) {
      EndsSnoc(events, e, i, k, c);
    }
    if k in Run(events).sup.drained {
      var i, c :| LastDrain(events, i, k, c) && Run(events).sup.drained[k] == MarkOf(c);
      assert LastDrain(events + [e], i, k, c);
    }
  }

  lemma MarkElsewhere(events: seq<Event>, e: Event, k: Key)
    requires Marked(events, k) && forall c :: !EndsNow(Run(events), e, k, c)
    requires
      var before, after := Run(events).sup.drained, Run(events + [e]).sup.drained;
      (k in before <==> k in after) && (k in before ==> before[k] == after[k])
    ensures Marked(events + [e], k)
  {
    forall i, c ensures EndsClean(events + [e], i, k, c) <==> EndsClean(events, i, k, c) {
      EndsSnoc(events, e, i, k, c);
    }
    if k in Run(events).sup.drained {
      var i, c :| LastDrain(events, i, k, c) && Run(events).sup.drained[k] == MarkOf(c);
      assert LastDrain(events + [e], i, k, c);
    }
  }

  lemma OtherEnds(w: World, e: Event, k: Key)
    requires forall c :: !EndsNow(w, e, k, c)
    ensures
      var before, after := w.sup.drained, Apply(w, e).sup.drained;
      (k in before <==> k in after) && (k in before ==> before[k] == after[k])
  {
    if e.End? && e.sid in w.live {
      assert !EndsNow(w, e, k, w.live[e.sid].target);
    }
  }

  lemma StepKeepsMarks(events: seq<Event>, e: Event, k: Key)
    requires Marked(events, k)
    ensures Marked(events + [e], k)
  {
    var w := Run(events);
    RunSnoc(events, e);
    if c :| EndsNow(w, e, k, c) {
      assert Apply(w, e).sup == FinishStep(w.sup, c, true, true);
      if Drains(c) {
        DrainNow(events, e, k, c);
      } else {
        NoDrainNow(events, e, k);
      }
    } else {
      OtherEnds(w, e, k);
      MarkElsewhere(events, e, k);
    }
  }

  lemma {:induction false} RunMarks(events: seq<Event>, k: Key)
    ensures Marked(events, k)
  {
    if events != [] {
      var init, e := events[..|events| - 1], events[|events| - 1];
      RunMarks(init, k);
      StepKeepsMarks(init, e, k);
      assert events == init + [e];
    }
  }

  // ---- refusals ----

  /** Some stream of the key that was claimed with its pod finished has ended cleanly. */
  ghost predicate Finished(events: seq<Event>, k: Key) {
    exists i, c :: EndsClean(events, i, k, c) && c.terminalAtAttach
  }

  lemma FinishedIsTerminal(events: seq<Event>, k: Key)
    ensures Finished(events, k) <==> Terminal(Run(events).sup, k)
  {
    if i, c :| EndsClean(events, i, k, c) && c.terminalAtAttach {
      RunSnoc(events[..i], events[i]);
      assert events[..i + 1] == events[..i] + [events[i]];
      TerminalStays(events, i + 1, k);
    }
    RunMarks(events, k);
  }

  lemma OneLastDrain(events: seq<Event>, k: Key, i: int, c: Target, j: int, d: Target)
    requires LastDrain(events, i, k, c) && LastDrain(events, j, k, d)
    ensures i == j && c == d
  {
  }

  /** The container is stopped now, and so it was, at the same restart count, when the stream of its last draining end
      was claimed. */
  ghost predicate SameGeneration(events: seq<Event>, t: Target) {
    t.drainAtAttach && exists i, c :: LastDrain(events, i, t.key, c) && c.drainAtAttach && c.gen == t.gen
  }

  lemma SameGenerationIsMarked(events: seq<Event>, t: Target)
    requires !Finished(events, t.key)
    ensures
      var drained := Run(events).sup.drained;
      SameGeneration(events, t) <==> t.key in drained && t.drainAtAttach && t.gen == drained[t.key].gen
  {
    var drained := Run(events).sup.drained;
    RunMarks(events, t.key);
    if t.key in drained {
      var i, c :| LastDrain(events, i, t.key, c) && drained[t.key] == MarkOf(c);
      assert !c.terminalAtAttach;
      if j, d :| LastDrain(events, j, t.key, d) && d.drainAtAttach && d.gen == t.gen {
        OneLastDrain(events, t.key, i, c, j, d);
      }
    }
  }

  /** In every run, a container of a resolved pod is passed over exactly when a stream of it is running, when one that
      was claimed with its pod finished has ended cleanly, or when it is stopped and was drained at this generation. */
  lemma RefusedExactly(events: seq<Event>, t: Target)
    requires var targets := Run(events).targets; targets.Some? && t.key.uid in targets.value
    ensures !Enabled(Run(events), Attach(t)) <==>
            || (exists sid :: StreamerOf(Run(events), t.key, sid))
            || Finished(events, t.key)
            || SameGeneration(events, t)
  {
    var w := Run(events);
    RunIsSound(events);
    assert ClaimIsLive(w, t.key);
    if sid :| StreamerOf(w, t.key, sid) {
      assert StreamerClaims(w, sid);
    }
    FinishedIsTerminal(events, t.key);
    if !Finished(events, t.key) {
      SameGenerationIsMarked(events, t);
    }
  }
}
