/**
 Over every interleaving the log supervisor delivers for a container what the replay rule delivers over its connections
 one after the other, until a resolve costs it its record; and so, where each re-attach carries on, one slice.
 */
module LogSupervisorSlices {
  import opened Prelude
  import opened ReplayFilter
  import opened ReplaySlices
  import opened LogSupervisor
  import opened LogSupervisorRuns

  /** The lines read for a container, one series for each stream that was opened. */
  ghost function Connections(events: seq<Event>, k: Key): seq<seq<Line>> {
    if events == [] then []
    else Connected(Run(events[..|events| - 1]), events[|events| - 1], k, Connections(events[..|events| - 1], k))
  }

  ghost function Connected(w: World, e: Event, k: Key, cs: seq<seq<Line>>): seq<seq<Line>> {
    if !Enabled(w, e) then cs
    else match e
      case Open(sid) => if StreamerOf(w, k, sid) then cs + [[]] else cs
      case Read(sid, line) => if StreamerOf(w, k, sid) then ReadOn(cs, line) else cs
      case _ => cs
  }

  function ReadOn(cs: seq<seq<Line>>, line: Line): seq<seq<Line>> {
    if cs == [] then [[line]] else cs[..|cs| - 1] + [cs[|cs| - 1] + [line]]
  }

  /** The same, starting anew whenever a resolve costs the container its record. */
  ghost function Eras(events: seq<Event>, k: Key): (r: seq<seq<seq<Line>>>)
    ensures r != []
  {
    if events == [] then [[]]
    else NextEras(Run(events[..|events| - 1]), events[|events| - 1], k, Eras(events[..|events| - 1], k))
  }

  ghost function NextEras(w: World, e: Event, k: Key, r: seq<seq<seq<Line>>>): (s: seq<seq<seq<Line>>>)
    requires r != []
    ensures s != []
  {
    if Spares(w, e, k) then r[..|r| - 1] + [Connected(w, e, k, r[|r| - 1])] else r + [[]]
  }

  /** What the replay rule delivers when it starts anew in each era. */
  function FollowEras(eras: seq<seq<seq<Line>>>): seq<Line> {
    if eras == [] then [] else FollowEras(eras[..|eras| - 1]) + Follow(eras[|eras| - 1]).out
  }

  // ---- where the rule stands ----

  /** The record and the deliveries, and the snapshot of the last connection if there has been one. */
  datatype Stand = Stand(record: Option<Record>, out: seq<Line>, connected: bool, snapshot: Option<Record>)

  function StandOf(eras: seq<seq<seq<Line>>>): Stand
    requires eras != []
  {
    var cs := eras[|eras| - 1];
    Stand(Follow(cs).record, FollowEras(eras), cs != [], FollowFilter(cs).snapshot)
  }

  /** The filter at the end of the last connection. */
  function FollowFilter(cs: seq<seq<Line>>): Filter {
    if cs == [] then Opened(None) else Scan(Opened(Follow(cs[..|cs| - 1]).record), cs[|cs| - 1]).filter
  }

  function OpenStand(st: Stand): Stand {
    st.(connected := true, snapshot := st.record)
  }

  function ReadStand(st: Stand, line: Line): Stand {
    var f := Filter(st.snapshot, st.record);
    Stand(Step(f, line).record, st.out + (if Drops(f, line) then [] else [line]), true, Step(f, line).snapshot)
  }

  function AnewStand(st: Stand): Stand {
    Stand(None, st.out, false, None)
  }

  lemma EraGrows(r: seq<seq<seq<Line>>>, cs: seq<seq<Line>>)
    requires r != []
    ensures
      var s := r[..|r| - 1] + [cs];
      FollowEras(s) == FollowEras(r[..|r| - 1]) + Follow(cs).out
  {
    assert (r[..|r| - 1] + [cs])[..|r| - 1] == r[..|r| - 1];
  }

  lemma EraOpens(r: seq<seq<seq<Line>>>)
    requires r != []
    ensures StandOf(r[..|r| - 1] + [r[|r| - 1] + [[]]]) == OpenStand(StandOf(r))
  {
    var cs := r[|r| - 1];
    assert (cs + [[]])[..|cs|] == cs;
    assert Scan(Opened(Follow(cs).record), []) == Scanned(Opened(Follow(cs).record), [], []);
    EraGrows(r, cs + [[]]);
  }

  lemma FollowReads(cs: seq<seq<Line>>, line: Line)
    requires cs != []
    ensures
      var f := FollowFilter(cs);
      && f.record == Follow(cs).record && FollowFilter(ReadOn(cs, line)) == Step(f, line)
      && Follow(ReadOn(cs, line)).record == Step(f, line).record
      && Follow(ReadOn(cs, line)).out == Follow(cs).out + if Drops(f, line) then [] else [line]
  {
    var init, last := cs[..|cs| - 1], cs[|cs| - 1];
    assert ReadOn(cs, line)[..|init|] == init;
    ScanSnoc(Opened(Follow(init).record), last, line);
  }

  lemma EraReads(r: seq<seq<seq<Line>>>, line: Line)
    requires r != [] && r[|r| - 1] != []
    ensures StandOf(r[..|r| - 1] + [ReadOn(r[|r| - 1], line)]) == ReadStand(StandOf(r), line)
  {
    var cs := r[|r| - 1];
    FollowReads(cs, line);
    EraGrows(r, ReadOn(cs, line));
    Assoc(FollowEras(r[..|r| - 1]), Follow(cs).out, if Drops(FollowFilter(cs), line) then [] else [line]);
  }

  lemma Assoc<T>(a: seq<T>, b: seq<T>, c: seq<T>)
    ensures a + (b + c) == a + b + c
  {
  }

  lemma EraEnds(r: seq<seq<seq<Line>>>)
    requires r != []
    ensures StandOf(r + [[]]) == AnewStand(StandOf(r))
  {
    assert (r + [[]])[..|r|] == r;
  }

  // ---- the supervisor stands there too ----

  /** An open streamer of the key stands where the last connection ends. */
  ghost predicate StreamFollows(w: World, k: Key, st: Stand, sid: nat) {
    StreamerOf(w, k, sid) && w.live[sid].snapshot.Some? ==>
      st.connected && w.live[sid].snapshot.value == st.snapshot
  }

  ghost predicate KeyFollows(w: World, k: Key, st: Stand) {
    && (!Terminal(w.sup, k) ==> RecordOf(w, k) == st.record) && DeliveredOf(w, k) == st.out
    && forall sid :: StreamFollows(w, k, st, sid)
  }

  lemma UntouchedFollows(w: World, v: World, k: Key, st: Stand)
    requires KeyFollows(w, k, st) && Untouched(w, v, k)
    ensures KeyFollows(v, k, st)
  {
    forall sid ensures StreamFollows(v, k, st, sid) {
      assert StreamFollows(w, k, st, sid) && SameStream(w, v, k, sid);
    }
  }

  lemma GrowFollows(w: World, e: Event, k: Key, st: Stand)
    requires e.Grow? && KeyFollows(w, k, st)
    ensures KeyFollows(Apply(w, e), k, st)
  {
    forall sid ensures StreamFollows(Apply(w, e), k, st, sid) {
      assert StreamFollows(w, k, st, sid);
    }
  }

  lemma OpenFollows(w: World, e: Event, k: Key, st: Stand)
    requires Sound(w) && Enabled(w, e) && e.Open? && KeyFollows(w, k, st)
    ensures KeyFollows(Apply(w, e), k, if StreamerOf(w, k, e.sid) then OpenStand(st) else st)
  {
    var v, next := Apply(w, e), if StreamerOf(w, k, e.sid) then OpenStand(st) else st;
    assert StreamerClaims(w, e.sid) && TerminalIsQuiet(w, k);
    forall sid ensures StreamFollows(v, k, next, sid) {
      assert StreamFollows(w, k, st, sid) && AtMostOneStreamer(w, sid, e.sid);
    }
  }

  /** What a line handled by the key's own streamer leaves behind. */
  lemma ReadFollows(w: World, e: Event, k: Key, st: Stand)
    requires Sound(w) && Enabled(w, e) && e.Read? && KeyFollows(w, k, st) && StreamerOf(w, k, e.sid)
    ensures st.connected && KeyFollows(Apply(w, e), k, ReadStand(st, e.line))
  {
    var v := Apply(w, e);
    assert StreamFollows(w, k, st, e.sid);
    assert StreamerClaims(w, e.sid) && TerminalIsQuiet(w, k) && RecordExists(w, k);
    assert FilterOf(w, e.sid) == Filter(st.snapshot, st.record);
    forall sid ensures StreamFollows(v, k, ReadStand(st, e.line), sid) {
      assert AtMostOneStreamer(w, sid, e.sid);
    }
  }

  /** A resolve that costs the key its record. */
  lemma ForgetFollows(w: World, e: Event, k: Key, st: Stand)
    requires Sound(w) && KeyFollows(w, k, st) && !Spares(w, e, k)
    ensures KeyFollows(Apply(w, e), k, AnewStand(st))
  {
    forall sid ensures StreamFollows(Apply(w, e), k, AnewStand(st), sid) {
      assert StreamerClaims(w, sid);
    }
  }

  /** One step, whatever it is. */
  lemma StepFollows(w: World, e: Event, k: Key, r: seq<seq<seq<Line>>>)
    requires Sound(w) && Enabled(w, e) && r != [] && KeyFollows(w, k, StandOf(r))
    ensures KeyFollows(Apply(w, e), k, StandOf(NextEras(w, e, k, r)))
  {
    if !Spares(w, e, k) {
      ForgetFollows(w, e, k, StandOf(r));
      EraEnds(r);
    } else if e.Open? {
      OpenStepFollows(w, e, k, r);
    } else if e.Read? {
      ReadStepFollows(w, e, k, r);
    } else {
      SameEra(r);
      OtherStepFollows(w, e, k, StandOf(r));
    }
  }

  lemma SameEra(r: seq<seq<seq<Line>>>)
    requires r != []
    ensures r[..|r| - 1] + [r[|r| - 1]] == r
  {
  }

  lemma OpenStepFollows(w: World, e: Event, k: Key, r: seq<seq<seq<Line>>>)
    requires Sound(w) && Enabled(w, e) && e.Open? && r != [] && KeyFollows(w, k, StandOf(r))
    ensures KeyFollows(Apply(w, e), k, StandOf(NextEras(w, e, k, r)))
  {
    SameEra(r);
    OpenFollows(w, e, k, StandOf(r));
    EraOpens(r);
  }

  lemma ReadStepFollows(w: World, e: Event, k: Key, r: seq<seq<seq<Line>>>)
    requires Sound(w) && Enabled(w, e) && e.Read? && r != [] && KeyFollows(w, k, StandOf(r))
    ensures KeyFollows(Apply(w, e), k, StandOf(NextEras(w, e, k, r)))
  {
    if StreamerOf(w, k, e.sid) {
      ReadFollows(w, e, k, StandOf(r));
      EraReads(r, e.line);
    } else {
      SameEra(r);
      ReadIsElsewhere(w, e, k);
      UntouchedFollows(w, Apply(w, e), k, StandOf(r));
    }
  }

  lemma OtherStepFollows(w: World, e: Event, k: Key, st: Stand)
    requires Sound(w) && Enabled(w, e) && !e.Open? && !e.Read? && Spares(w, e, k) && KeyFollows(w, k, st)
    ensures KeyFollows(Apply(w, e), k, st)
  {
    if e.Grow? {
      GrowFollows(w, e, k, st);
    } else {
      BookkeepingIsElsewhere(w, e, k);
      UntouchedFollows(w, Apply(w, e), k, st);
    }
  }

  lemma IdleEras(w: World, e: Event, k: Key, r: seq<seq<seq<Line>>>)
    requires r != [] && !Enabled(w, e)
    ensures NextEras(w, e, k, r) == r
  {
    assert r == r[..|r| - 1] + [r[|r| - 1]];
  }

  /** In every run the supervisor stands where the replay rule does. */
  lemma {:induction false} RunFollowsRule(events: seq<Event>, k: Key)
    ensures KeyFollows(Run(events), k, StandOf(Eras(events, k)))
  {
    if events == [] {
      var one: seq<seq<seq<Line>>> := [[]];
      assert one[..0] == [];
    } else {
      var init, e := events[..|events| - 1], events[|events| - 1];
      RunFollowsRule(init, k);
      RunIsSound(init);
      if Enabled(Run(init), e) {
        StepFollows(Run(init), e, k, Eras(init, k));
      } else {
        IdleEras(Run(init), e, k, Eras(init, k));
      }
    }
  }

  /** In every run, what is delivered for a container is what the replay rule delivers over its connections, starting
      anew whenever a resolve costs the container its record. */
  lemma SupervisorFollowsRule(events: seq<Event>, k: Key)
    ensures DeliveredOf(Run(events), k) == FollowEras(Eras(events, k))
  {
    RunFollowsRule(events, k);
  }

  lemma {:induction false} OneEra(events: seq<Event>, k: Key)
    requires SparedFrom(events, 0, k)
    ensures Eras(events, k) == [Connections(events, k)]
  {
    if events != [] {
      SparedFromInit(events, 0, k);
      OneEra(events[..|events| - 1], k);
    }
  }

  lemma FollowOneEra(cs: seq<seq<Line>>)
    ensures FollowEras([cs]) == Follow(cs).out
  {
    assert [cs][..0] == [];
    assert FollowEras([cs]) == [] + Follow(cs).out;
  }

  /** So, while no resolve costs it its record, what is delivered is one slice of the container's log, in order and each
      position once, when each connection reads a tail that carries on from the ones before. */
  lemma SupervisorDeliversOneSlice(events: seq<Event>, k: Key, windows: seq<(nat, nat)>)
    requires SparedFrom(events, 0, k)
    requires Sorted(LogOf(Run(events), k)) && Reattaches(LogOf(Run(events), k), windows)
    requires Connections(events, k) == Windows(LogOf(Run(events), k), windows)
    requires Seamless(LogOf(Run(events), k), windows)
    ensures DeliveredOf(Run(events), k) == SliceOf(LogOf(Run(events), k), Covered(windows))
  {
    SupervisorFollowsRule(events, k);
    OneEra(events, k);
    FollowOneEra(Connections(events, k));
    FollowIsOneSliceIff(LogOf(Run(events), k), windows);
  }
}
