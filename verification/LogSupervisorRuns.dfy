/** What the log supervisor guarantees over every interleaving of resolves, streamers and log growth. */
module LogSupervisorRuns {
  import opened Prelude
  import opened ReplayFilter
  import opened LogSupervisor

  /** A running streamer. `snapshot` is set once its stream is open; `before`, `read` and `out` are the
      history the proof speaks about: what the key had delivered when the stream opened, the lines it
      read since and those of them it delivered. */
  datatype Streamer = Streamer(target: Target, resume: nat, snapshot: Option<Option<Record>>,
                               before: multiset<Line>, read: seq<Line>, out: seq<Line>)

  /** `targets` are the pods of the resolve in progress, None while the root is gone. Records live in
      `heap` under the numbers that `sup.resumes` and the streamers hold, so sharing is visible. */
  datatype World = World(sup: Sup<nat>, heap: map<nat, Option<Record>>, live: map<nat, Streamer>, next: nat,
                         targets: Option<set<string>>, logs: map<Key, seq<Line>>, delivered: map<Key, seq<Line>>)

  datatype Event =
    | Grow(key: Key, line: Line)                          // the container writes a line
    | Resolve(pods: Option<set<string>>)                  // a tick: the root's pods, None when it is gone
    | Attach(target: Target)                              // the resolve in progress reaches a container
    | Open(sid: nat)                                      // a streamer's log stream opens
    | Read(sid: nat, line: Line)                          // its scan handles a line of the tail
    | End(sid: nat, cleanEOF: bool)                       // it stops: end of log, error or cancellation

  const Start := World(Sup({}, map[], map[], false), map[], map[], 0, None, map[], map[])

  function Present(pods: Option<set<string>>): set<string> {
    if pods.Some? then pods.value else {}
  }

  function LogOf(w: World, k: Key): seq<Line> {
    if k in w.logs then w.logs[k] else []
  }

  function DeliveredOf(w: World, k: Key): seq<Line> {
    if k in w.delivered then w.delivered[k] else []
  }

  function FilterOf(w: World, sid: nat): Filter
    requires sid in w.live && w.live[sid].snapshot.Some?
  {
    Filter(w.live[sid].snapshot.value, if w.live[sid].resume in w.heap then w.heap[w.live[sid].resume] else None)
  }

  /** A stream sends lines of the container's log, none more often than the log holds it. */
  ghost predicate Enabled(w: World, e: Event) {
    match e
    case Grow(_, _) => true
    case Resolve(_) => true
    case Attach(t) => w.targets.Some? && t.key.uid in w.targets.value && !Skips(w.sup, t)
    case Open(sid) => sid in w.live && w.live[sid].snapshot.None?
    case Read(sid, line) =>
      && sid in w.live && w.live[sid].snapshot.Some?
      && StampedWithin(multiset(w.live[sid].read + [line]), multiset(LogOf(w, w.live[sid].target.key)))
    case End(sid, _) => sid in w.live
  }

  ghost function Apply(w: World, e: Event): World {
    if !Enabled(w, e) then w else
    match e
    case Grow(k, line) => w.(logs := w.logs[k := LogOf(w, k) + [line]])
    case Resolve(pods) =>
      w.(sup := RootStep(PruneStep(w.sup, Present(pods)), pods.Some?), targets := pods)
    case Attach(t) =>
      var sup := ClaimStep(w.sup, t, w.next);
      w.(sup := sup, next := w.next + 1,
         heap := if t.key in w.sup.resumes then w.heap else w.heap[w.next := None],
         live := w.live[w.next := Streamer(t, sup.resumes[t.key], None, multiset{}, [], [])])
    case Open(sid) =>
      var st := w.live[sid];
      w.(live := w.live[sid := st.(snapshot := Some(if st.resume in w.heap then w.heap[st.resume] else None),
                                   before := multiset(DeliveredOf(w, st.target.key)), read := [], out := [])])
    case Read(sid, line) =>
      var st, f := w.live[sid], FilterOf(w, sid);
      var g := Step(f, line);
      var after := st.(snapshot := Some(g.snapshot), read := st.read + [line]);
      if Drops(f, line) then w.(live := w.live[sid := after])
      else
        w.(live := w.live[sid := after.(out := st.out + [line])],
           heap := w.heap[st.resume := g.record],
           delivered := w.delivered[st.target.key := DeliveredOf(w, st.target.key) + [line]])
    case End(sid, cleanEOF) =>
      var st := w.live[sid];
      w.(sup := FinishStep(w.sup, st.target, st.snapshot.Some?, cleanEOF), live := w.live - {sid})
  }

  ghost function Run(events: seq<Event>): World {
    if events == [] then Start else Apply(Run(events[..|events| - 1]), events[|events| - 1])
  }

  lemma RunSnoc(events: seq<Event>, e: Event)
    ensures Run(events + [e]) == Apply(Run(events), e)
  {
    assert (events + [e])[..|events|] == events;
  }

  // ---- streamers and their records ----

  ghost predicate StreamerClaims(w: World, sid: nat) {
    sid in w.live ==>
      var st := w.live[sid];
      && sid < w.next
      && st.target.key in w.sup.streaming
      && st.target.key in w.sup.resumes && w.sup.resumes[st.target.key] == st.resume
  }

  ghost predicate AtMostOneStreamer(w: World, sid: nat, other: nat) {
    sid in w.live && other in w.live && w.live[sid].target.key == w.live[other].target.key ==> sid == other
  }

  ghost predicate StreamerOf(w: World, k: Key, sid: nat) {
    sid in w.live && w.live[sid].target.key == k
  }

  ghost predicate ClaimIsLive(w: World, k: Key) {
    k in w.sup.streaming ==> exists sid :: StreamerOf(w, k, sid)
  }

  ghost predicate RecordUnshared(w: World, k: Key, other: Key) {
    k in w.sup.resumes && other in w.sup.resumes && w.sup.resumes[k] == w.sup.resumes[other] ==> k == other
  }

  ghost predicate RecordExists(w: World, k: Key) {
    k in w.sup.resumes ==> w.sup.resumes[k] in w.heap && w.sup.resumes[k] < w.next
  }

  ghost predicate TerminalIsQuiet(w: World, k: Key) {
    Terminal(w.sup, k) ==> k !in w.sup.streaming && k !in w.sup.resumes
  }

  /** Each key has at most one streamer, its claim and its unshared record are in the maps, and a key
      that drained for good has neither. */
  ghost predicate Sound(w: World) {
    && (forall sid :: StreamerClaims(w, sid))
    && (forall sid, other :: AtMostOneStreamer(w, sid, other))
    && (forall k :: ClaimIsLive(w, k))
    && (forall k, other :: RecordUnshared(w, k, other))
    && (forall k :: RecordExists(w, k))
    && (forall k :: TerminalIsQuiet(w, k))
  }

  lemma ApplyKeepsStreamers(w: World, e: Event)
    requires Sound(w) && Enabled(w, e)
    ensures forall sid :: StreamerClaims(Apply(w, e), sid)
  {
    forall sid ensures StreamerClaims(Apply(w, e), sid) {
      assert StreamerClaims(w, sid);
      if e.End? {
        assert AtMostOneStreamer(w, sid, e.sid);
      }
    }
  }

  lemma ApplyKeepsOneStreamer(w: World, e: Event)
    requires Sound(w) && Enabled(w, e)
    ensures forall sid, other :: AtMostOneStreamer(Apply(w, e), sid, other)
  {
    forall sid, other ensures AtMostOneStreamer(Apply(w, e), sid, other) {
      assert AtMostOneStreamer(w, sid, other) && StreamerClaims(w, sid) && StreamerClaims(w, other);
    }
  }

  lemma ApplyKeepsClaims(w: World, e: Event)
    requires Sound(w) && Enabled(w, e)
    ensures forall k :: ClaimIsLive(Apply(w, e), k)
    ensures forall k :: TerminalIsQuiet(Apply(w, e), k)
  {
    var v := Apply(w, e);
    forall k ensures ClaimIsLive(v, k) {
      assert ClaimIsLive(w, k);
      if k in w.sup.streaming {
        var sid :| StreamerOf(w, k, sid);
        assert StreamerClaims(w, sid);
        if !(e.End? && e.sid == sid) {
          assert StreamerOf(v, k, sid);
        }
      } else if k in v.sup.streaming {
        assert StreamerOf(v, k, w.next);
      }
    }
    forall k ensures TerminalIsQuiet(v, k) {
      assert TerminalIsQuiet(w, k);
    }
  }

  lemma ApplyKeepsRecords(w: World, e: Event)
    requires Sound(w) && Enabled(w, e)
    ensures forall k, other :: RecordUnshared(Apply(w, e), k, other)
    ensures forall k :: RecordExists(Apply(w, e), k)
  {
    var v := Apply(w, e);
    forall k, other ensures RecordUnshared(v, k, other) {
      assert RecordUnshared(w, k, other) && RecordExists(w, k) && RecordExists(w, other);
    }
    forall k ensures RecordExists(v, k) {
      assert RecordExists(w, k);
    }
  }

  /** Every reachable state is sound, whatever the interleaving. */
  lemma {:induction false} RunIsSound(events: seq<Event>)
    ensures Sound(Run(events))
  {
    if events != [] {
      var w, e := Run(events[..|events| - 1]), events[|events| - 1];
      RunIsSound(events[..|events| - 1]);
      if Enabled(w, e) {
        ApplyKeepsStreamers(w, e);
        ApplyKeepsOneStreamer(w, e);
        ApplyKeepsClaims(w, e);
        ApplyKeepsRecords(w, e);
      }
    }
  }

  // ---- at most once ----

  /** A resolve does not cost the key its record: it finds the pod, the key's stream is running, or there is nothing to
      lose. */
  ghost predicate Spares(w: World, e: Event, k: Key) {
    e.Resolve? ==> k.uid in Present(e.pods) || k in w.sup.streaming || RecordOf(w, k) == None
  }

  ghost predicate SparedAt(events: seq<Event>, i: int, k: Key) {
    0 <= i < |events| ==> Spares(Run(events[..i]), events[i], k)
  }

  /** No resolve from step `n` on costs the key its record. */
  ghost predicate SparedFrom(events: seq<Event>, n: nat, k: Key) {
    forall i :: n <= i < |events| ==> SparedAt(events, i, k)
  }

  lemma SparedFromInit(events: seq<Event>, n: nat, k: Key)
    requires events != [] && SparedFrom(events, n, k)
    ensures SparedFrom(events[..|events| - 1], n, k)
    ensures n < |events| ==> Spares(Run(events[..|events| - 1]), events[|events| - 1], k)
  {
    var init := events[..|events| - 1];
    forall i | n <= i < |init| ensures SparedAt(init, i, k) {
      assert SparedAt(events, i, k) && init[..i] == events[..i];
    }
    if n < |events| {
      assert SparedAt(events, |events| - 1, k);
    }
  }

  ghost function RecordOf(w: World, k: Key): Option<Record> {
    if k in w.sup.resumes && w.sup.resumes[k] in w.heap then w.heap[w.sup.resumes[k]] else None
  }

  /** The record of a key that may still be attached is exact for what the key delivered. */
  ghost predicate Remembers(w: World, k: Key) {
    !Terminal(w.sup, k) ==> RecordExact(RecordOf(w, k), multiset(DeliveredOf(w, k)))
  }

  ghost predicate DeliveredWithin(w: World, k: Key) {
    StampedWithin(multiset(DeliveredOf(w, k)), multiset(LogOf(w, k)))
  }

  ghost predicate StreamExact(w: World, k: Key, sid: nat) {
    StreamerOf(w, k, sid) && w.live[sid].snapshot.Some? ==>
      var st := w.live[sid];
      && SnapshotExact(st.snapshot.value, st.before, multiset(st.read))
      && DeliversExact(st.snapshot.value, st.before, multiset(st.read), multiset(st.out))
      && StampedWithin(st.before, multiset(LogOf(w, k)))
      && StampedWithin(multiset(st.read), multiset(LogOf(w, k)))
      && multiset(DeliveredOf(w, k)) == st.before + multiset(st.out)
  }

  ghost predicate KeyExact(w: World, k: Key) {
    Remembers(w, k) && DeliveredWithin(w, k) && forall sid :: StreamExact(w, k, sid)
  }

  ghost predicate SameStream(w: World, v: World, k: Key, sid: nat) {
    StreamerOf(v, k, sid) && v.live[sid].snapshot.Some? ==> StreamerOf(w, k, sid) && v.live[sid] == w.live[sid]
  }

  /** Nothing that concerns the key changes, unless it drains for good. */
  ghost predicate Untouched(w: World, v: World, k: Key) {
    && DeliveredOf(v, k) == DeliveredOf(w, k) && LogOf(v, k) == LogOf(w, k)
    && (Terminal(v.sup, k) || (RecordOf(v, k) == RecordOf(w, k) && !Terminal(w.sup, k)))
    && forall sid :: SameStream(w, v, k, sid)
  }

  lemma UntouchedKey(w: World, v: World, k: Key)
    requires KeyExact(w, k) && Untouched(w, v, k)
    ensures KeyExact(v, k)
  {
    forall sid ensures StreamExact(v, k, sid) {
      assert StreamExact(w, k, sid) && SameStream(w, v, k, sid);
    }
  }

  /** Resolves, attaches and ends touch neither logs nor deliveries; a key that is spared keeps its record. */
  lemma BookkeepingIsElsewhere(w: World, e: Event, k: Key)
    requires Sound(w) && Enabled(w, e) && (e.Resolve? || e.End? || e.Attach?) && Spares(w, e, k)
    ensures Untouched(w, Apply(w, e), k)
  {
    var v := Apply(w, e);
    assert RecordExists(w, k) && TerminalIsQuiet(w, k);
    if e.End? {
      assert StreamerClaims(w, e.sid);
    }
    forall sid ensures SameStream(w, v, k, sid) {
      assert StreamerClaims(w, sid);
    }
  }

  lemma StampedWithinGrows(a: multiset<Line>, b: multiset<Line>, line: Line)
    requires StampedWithin(a, b)
    ensures StampedWithin(a, b + multiset{line})
  {
    forall l ensures Within(a, b + multiset{line}, l) {
      assert Within(a, b, l);
    }
  }

  lemma GrowKeepsKeyExact(w: World, e: Event, k: Key)
    requires e.Grow? && KeyExact(w, k)
    ensures KeyExact(Apply(w, e), k)
  {
    var v := Apply(w, e);
    assert DeliveredOf(v, k) == DeliveredOf(w, k) && RecordOf(v, k) == RecordOf(w, k);
    if e.key == k {
      assert multiset(LogOf(v, k)) == multiset(LogOf(w, k)) + multiset{e.line};
      StampedWithinGrows(multiset(DeliveredOf(w, k)), multiset(LogOf(w, k)), e.line);
    }
    forall sid ensures StreamExact(v, k, sid) {
      assert StreamExact(w, k, sid);
      if e.key == k && StreamerOf(w, k, sid) && w.live[sid].snapshot.Some? {
        StampedWithinGrows(w.live[sid].before, multiset(LogOf(w, k)), e.line);
        StampedWithinGrows(multiset(w.live[sid].read), multiset(LogOf(w, k)), e.line);
      }
    }
  }

  lemma OpenKeepsKeyExact(w: World, e: Event, k: Key)
    requires Sound(w) && Enabled(w, e) && e.Open? && KeyExact(w, k)
    ensures KeyExact(Apply(w, e), k)
  {
    var v := Apply(w, e);
    assert StreamerClaims(w, e.sid) && TerminalIsQuiet(w, k);
    assert DeliveredOf(v, k) == DeliveredOf(w, k) && RecordOf(v, k) == RecordOf(w, k);
    forall sid ensures StreamExact(v, k, sid) {
      assert StreamExact(w, k, sid);
      if sid == e.sid && StreamerOf(w, k, sid) {
        assert multiset(v.live[sid].read) == multiset{} && multiset(v.live[sid].out) == multiset{};
        OpenedExact(RecordOf(w, k), multiset(DeliveredOf(w, k)));
        assert StampedWithin(multiset{}, multiset(LogOf(w, k))) by {
          forall l ensures Within(multiset{}, multiset(LogOf(w, k)), l) {
          }
        }
      }
    }
  }

  lemma ReadIsElsewhere(w: World, e: Event, k: Key)
    requires Sound(w) && Enabled(w, e) && e.Read? && !StreamerOf(w, k, e.sid)
    ensures Untouched(w, Apply(w, e), k)
  {
    assert StreamerClaims(w, e.sid) && RecordUnshared(w, k, w.live[e.sid].target.key);
    forall sid ensures SameStream(w, Apply(w, e), k, sid) {
    }
  }

  function OutWith(f: Filter, out: multiset<Line>, line: Line): multiset<Line> {
    if Drops(f, line) then out else out + multiset{line}
  }

  /** What a handled line changes, and what it leaves alone. */
  lemma ReadChanges(w: World, e: Event, k: Key)
    requires Enabled(w, e) && e.Read? && StreamerOf(w, k, e.sid)
    ensures
      var v, st, f := Apply(w, e), w.live[e.sid], FilterOf(w, e.sid);
      && StreamerOf(v, k, e.sid) && LogOf(v, k) == LogOf(w, k)
      && v.live[e.sid].snapshot == Some(Step(f, e.line).snapshot) && v.live[e.sid].before == st.before
      && v.live[e.sid].read == st.read + [e.line]
      && multiset(v.live[e.sid].out) == OutWith(f, multiset(st.out), e.line)
      && multiset(DeliveredOf(v, k)) == OutWith(f, multiset(DeliveredOf(w, k)), e.line)
  {
  }

  /** A line handled by the key's own streamer: its history stays exact and within the log ... */
  lemma ReadKeepsStream(w: World, e: Event, k: Key)
    requires Sound(w) && Enabled(w, e) && e.Read? && KeyExact(w, k) && StreamerOf(w, k, e.sid)
    ensures StreamExact(Apply(w, e), k, e.sid) && DeliveredWithin(Apply(w, e), k)
  {
    var v, st, f := Apply(w, e), w.live[e.sid], FilterOf(w, e.sid);
    assert StreamExact(w, k, e.sid);
    ReadChanges(w, e, k);
    var log, before, read := multiset(LogOf(w, k)), st.before, multiset(st.read);
    var out := OutWith(f, multiset(st.out), e.line);
    assert multiset(st.read + [e.line]) == read + multiset{e.line};
    StepKeepsSnapshot(f, before, read, e.line);
    StepKeepsDelivers(f, before, read, multiset(st.out), e.line);
    WithinLog(Step(f, e.line).snapshot, log, before, read + multiset{e.line}, out);
    assert multiset(DeliveredOf(v, k)) == before + out;
  }

  /** ... and so does its record. */
  lemma ReadKeepsRecord(w: World, e: Event, k: Key)
    requires Sound(w) && Enabled(w, e) && e.Read? && KeyExact(w, k) && StreamerOf(w, k, e.sid)
    ensures Remembers(Apply(w, e), k)
  {
    var v, f := Apply(w, e), FilterOf(w, e.sid);
    assert StreamerClaims(w, e.sid) && TerminalIsQuiet(w, k) && RecordExists(w, k);
    assert f.record == RecordOf(w, k);
    if !Drops(f, e.line) {
      NoteKeepsExact(f.record, multiset(DeliveredOf(w, k)), e.line);
      assert multiset(DeliveredOf(v, k)) == multiset(DeliveredOf(w, k)) + multiset{e.line};
    }
  }

  lemma ReadKeepsKeyExact(w: World, e: Event, k: Key)
    requires Sound(w) && Enabled(w, e) && e.Read? && KeyExact(w, k) && StreamerOf(w, k, e.sid)
    ensures KeyExact(Apply(w, e), k)
  {
    ReadKeepsStream(w, e, k);
    ReadKeepsRecord(w, e, k);
    forall sid ensures StreamExact(Apply(w, e), k, sid) {
      assert AtMostOneStreamer(w, sid, e.sid);
    }
  }

  lemma {:induction false} RunKeepsKeyExact(events: seq<Event>, k: Key)
    requires SparedFrom(events, 0, k)
    ensures KeyExact(Run(events), k)
  {
    if events == [] {
      var w := Start;
      assert DeliveredOf(w, k) == [] && RecordOf(w, k) == None;
      forall l ensures Within(multiset(DeliveredOf(w, k)), multiset(LogOf(w, k)), l) {
      }
    } else {
      var init, e := events[..|events| - 1], events[|events| - 1];
      var w := Run(init);
      SparedFromInit(events, 0, k);
      RunKeepsKeyExact(init, k);
      RunIsSound(init);
      if Enabled(w, e) {
        match e
        case Grow(_, _) => GrowKeepsKeyExact(w, e, k);
        case Open(_) => OpenKeepsKeyExact(w, e, k);
        case Read(sid, _) =>
          if StreamerOf(w, k, sid) {
            ReadKeepsKeyExact(w, e, k);
          } else {
            ReadIsElsewhere(w, e, k);
            UntouchedKey(w, Apply(w, e), k);
          }
        case _ =>
          BookkeepingIsElsewhere(w, e, k);
          UntouchedKey(w, Apply(w, e), k);
      }
    }
  }

  /** Nothing is delivered twice: over any interleaving of ticks, attaches, early ends, cancellations and log growth in
      which no resolve costs a container its record, the stamped lines delivered for it form a sub-multiset of its
      log. */
  lemma DeliveredAtMostOnce(events: seq<Event>, k: Key)
    requires SparedFrom(events, 0, k)
    ensures StampedWithin(multiset(DeliveredOf(Run(events), k)), multiset(LogOf(Run(events), k)))
  {
    RunKeepsKeyExact(events, k);
  }

  // ---- drained for good ----

  lemma {:induction false} TerminalStays(events: seq<Event>, i: nat, k: Key)
    requires i <= |events| && Terminal(Run(events[..i]).sup, k)
    ensures Terminal(Run(events).sup, k)
  {
    if i == |events| {
      assert events[..i] == events;
    } else {
      var init := events[..|events| - 1];
      assert init[..i] == events[..i];
      TerminalStays(init, i, k);
      RunIsSound(init);
      var e := events[|events| - 1];
      if e.End? && Enabled(Run(init), e) {
        assert StreamerClaims(Run(init), e.sid) && TerminalIsQuiet(Run(init), k);
      }
    }
  }

  /** A key that drained after its pod had finished never gets another streamer. */
  lemma TerminalNeverRestarts(events: seq<Event>, i: nat, j: nat, k: Key)
    requires i <= j < |events| && Terminal(Run(events[..i]).sup, k)
    ensures events[j].Attach? && events[j].target.key == k ==> !Enabled(Run(events[..j]), events[j])
    ensures forall sid :: !StreamerOf(Run(events[..j]), k, sid)
  {
    assert events[..j][..i] == events[..i];
    TerminalStays(events[..j], i, k);
    RunIsSound(events[..j]);
    var w := Run(events[..j]);
    assert TerminalIsQuiet(w, k);
    forall sid ensures !StreamerOf(w, k, sid) {
      assert StreamerClaims(w, sid);
    }
  }

  // ---- the gone signal ----

  ghost predicate Signals(events: seq<Event>, i: nat)
    requires i < |events|
  {
    events[i].Resolve? && SignalsGone(Run(events[..i]).sup, events[i].pods.Some?)
  }

  ghost predicate RootMissing(e: Event) {
    e.Resolve? && e.pods.None?
  }

  ghost predicate RootFound(e: Event) {
    e.Resolve? && e.pods.Some?
  }

  ghost predicate MissingSinceFound(events: seq<Event>, i: int) {
    0 <= i < |events| && RootMissing(events[i]) && forall j :: i < j < |events| ==> !RootFound(events[j])
  }

  lemma MissingSinceFoundSnoc(init: seq<Event>, e: Event, i: int)
    ensures 0 <= i < |init| ==> (MissingSinceFound(init + [e], i) <==> MissingSinceFound(init, i) && !RootFound(e))
    ensures MissingSinceFound(init + [e], |init|) <==> RootMissing(e)
  {
    var events := init + [e];
    assert forall j :: 0 <= j < |init| ==> events[j] == init[j];
    assert events[|init|] == e;
  }

  lemma WasGoneStep(init: seq<Event>, e: Event)
    ensures Run(init + [e]).sup.wasGone <==> RootMissing(e) || (Run(init).sup.wasGone && !RootFound(e))
  {
    assert (init + [e])[..|init|] == init;
  }

  lemma {:induction false} WasGoneIff(events: seq<Event>)
    ensures Run(events).sup.wasGone <==> exists i :: MissingSinceFound(events, i)
  {
    if events != [] {
      var init, e := events[..|events| - 1], events[|events| - 1];
      assert events == init + [e];
      WasGoneIff(init);
      WasGoneStep(init, e);
      forall i
        ensures MissingSinceFound(events, i)
           <==> (i == |init| && RootMissing(e)) || (MissingSinceFound(init, i) && !RootFound(e))
      {
        MissingSinceFoundSnoc(init, e, i);
      }
      MissingSinceFoundSnoc(init, e, |init|);
    }
  }

  /** `gone` is signalled once per disappearance: at a resolve that misses the root exactly when no
      earlier one missed it since the root was last found ... */
  lemma SignalsOncePerDisappearance(events: seq<Event>, i: nat)
    requires i < |events|
    ensures Signals(events, i) <==> RootMissing(events[i]) && !exists j :: MissingSinceFound(events[..i], j)
  {
    WasGoneIff(events[..i]);
  }

  lemma StillMissing(events: seq<Event>, i: nat, j: nat)
    requires i < j <= |events| && RootMissing(events[i]) && forall m :: i < m < j ==> !RootFound(events[m])
    ensures MissingSinceFound(events[..j], i)
  {
  }

  /** ... so two signals always have a resolve that found the root between them. */
  lemma SignalsAreSeparated(events: seq<Event>, i: nat, j: nat)
    requires i < j < |events| && Signals(events, i) && Signals(events, j)
    ensures exists m :: i < m < j && RootFound(events[m])
  {
    SignalsOncePerDisappearance(events, i);
    if forall m :: i < m < j ==> !RootFound(events[m]) {
      StillMissing(events, i, j);
      SignalsOncePerDisappearance(events, j);
    }
  }
}
