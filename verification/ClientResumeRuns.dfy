/** What the browser's replay filter guarantees over every run of reconnects, lines and evictions. */
module ClientResumeRuns {
  import opened Prelude
  import opened ReplayFilter
  import opened ClientResume

  datatype Event = Open | Receive(entry: Entry)

  /** A run of the filter with its history: the accepted entries, the entries received since the last
      open, and per source the lines accepted since its record was created (`era`), that same count at
      the last open (`base`), and the lines accepted since the last open (`took`). */
  datatype History = History(st: Resume, accepted: seq<Entry>, conn: seq<Entry>,
                             era: map<string, multiset<Line>>, base: map<string, multiset<Line>>,
                             took: map<string, multiset<Line>>)

  function At(m: map<string, multiset<Line>>, source: string): multiset<Line> {
    if source in m then m[source] else multiset{}
  }

  ghost function Next(h: History, event: Event): History {
    match event
    case Open => h.(st := OpenedStep(h.st), conn := [], base := h.era, took := map[])
    case Receive(e) =>
      var source, st := SourceOf(e), AcceptStep(h.st, e);
      if !Accepts(h.st, e) then h.(st := st, conn := h.conn + [e])
      else
        var recorded := Step(SourceFilter(h.st, source), e.line).record.Some?;
        var era := if recorded then h.era[source := At(h.era, source) + multiset{e.line}] else h.era;
        h.(st := st, conn := h.conn + [e], accepted := h.accepted + [e],
           era := map x | x in era && x in st.live :: era[x],
           took := h.took[source := At(h.took, source) + multiset{e.line}])
  }

  ghost function Run(events: seq<Event>): History {
    if events == [] then History(Empty, [], [], map[], map[], map[])
    else Next(Run(events[..|events| - 1]), events[|events| - 1])
  }

  /** The lines of one source among some entries. */
  ghost function LinesFrom(es: seq<Entry>, source: string): multiset<Line> {
    if es == [] then multiset{}
    else
      var e := es[|es| - 1];
      LinesFrom(es[..|es| - 1], source) + (if SourceOf(e) == source then multiset{e.line} else multiset{})
  }

  lemma LinesFromSnoc(es: seq<Entry>, e: Entry, source: string)
    ensures LinesFrom(es + [e], source)
            == LinesFrom(es, source) + (if SourceOf(e) == source then multiset{e.line} else multiset{})
  {
    assert (es + [e])[..|es|] == es;
  }

  lemma {:induction false} LinesFromRest(es: seq<Entry>, source: string)
    requires es != []
    ensures LinesFrom(es[1..], source) <= LinesFrom(es, source)
  {
    if |es| > 1 {
      var init := es[..|es| - 1];
      LinesFromRest(init, source);
      assert es[1..][..|es[1..]| - 1] == init[1..];
    }
  }

  lemma {:induction false} LinesFromNone(es: seq<Entry>, source: string)
    requires forall e :: e in es ==> SourceOf(e) != source
    ensures LinesFrom(es, source) == multiset{}
  {
    if es != [] {
      LinesFromNone(es[..|es| - 1], source);
    }
  }

  /** What the viewer shows: the last LOG_BUFFER_CAPACITY accepted entries. */
  function Buffer(accepted: seq<Entry>): seq<Entry> {
    if |accepted| <= LOG_BUFFER_CAPACITY then accepted else accepted[|accepted| - LOG_BUFFER_CAPACITY..]
  }

  lemma BufferSnoc(accepted: seq<Entry>, e: Entry, source: string)
    ensures LinesFrom(Buffer(accepted + [e]), source)
            <= LinesFrom(Buffer(accepted), source) + (if SourceOf(e) == source then multiset{e.line} else multiset{})
  {
    var b := Buffer(accepted);
    LinesFromSnoc(b, e, source);
    if |accepted| < LOG_BUFFER_CAPACITY {
      assert Buffer(accepted + [e]) == b + [e];
    } else {
      assert Buffer(accepted + [e]) == b[1..] + [e];
      LinesFromRest(b, source);
      LinesFromSnoc(b[1..], e, source);
    }
  }

  // ---- the map is ordered by last acceptance ----

  /** The position of the source's last entry, -1 when it has none. */
  function LastOf(accepted: seq<Entry>, source: string): (i: int)
    ensures -1 <= i < |accepted|
    ensures i >= 0 ==> SourceOf(accepted[i]) == source
    ensures forall j :: i < j < |accepted| ==> SourceOf(accepted[j]) != source
  {
    if accepted == [] then -1
    else if SourceOf(accepted[|accepted| - 1]) == source then |accepted| - 1
    else LastOf(accepted[..|accepted| - 1], source)
  }

  lemma LastOfSnoc(accepted: seq<Entry>, e: Entry, source: string)
    ensures LastOf(accepted + [e], source) == if SourceOf(e) == source then |accepted| else LastOf(accepted, source)
  {
    assert (accepted + [e])[..|accepted|] == accepted;
  }

  ghost predicate Earlier(accepted: seq<Entry>, order: seq<string>, i: int, j: int) {
    0 <= i < j < |order| ==> LastOf(accepted, order[i]) < LastOf(accepted, order[j])
  }

  /** The keys of `live` are listed once each, least recently accepted first. */
  ghost predicate Ordered(st: Resume, accepted: seq<Entry>) {
    && (forall x :: x in st.order <==> x in st.live)
    && (forall x :: x in st.order ==> LastOf(accepted, x) >= 0)
    && AllEarlier(accepted, st.order)
  }

  ghost predicate AllEarlier(accepted: seq<Entry>, order: seq<string>) {
    forall i, j :: Earlier(accepted, order, i, j)
  }

  /** Listed in the order of some positions. */
  ghost predicate InOrder(at: string -> int, order: seq<string>, i: int, j: int) {
    0 <= i < j < |order| ==> at(order[i]) < at(order[j])
  }

  ghost predicate AllInOrder(at: string -> int, order: seq<string>) {
    forall i, j :: InOrder(at, order, i, j)
  }

  lemma RestInOrder(at: string -> int, order: seq<string>)
    requires order != [] && AllInOrder(at, order)
    ensures AllInOrder(at, order[1..]) && forall x :: x in order[1..] ==> at(order[0]) < at(x)
  {
    forall i, j ensures InOrder(at, order[1..], i, j) {
      assert InOrder(at, order, i + 1, j + 1);
    }
    forall x | x in order[1..] ensures at(order[0]) < at(x) {
      var k :| 0 <= k < |order[1..]| && order[1..][k] == x;
      assert InOrder(at, order, 0, k + 1);
    }
  }

  lemma FirstInOrder(at: string -> int, x: string, order: seq<string>)
    requires AllInOrder(at, order) && forall y :: y in order ==> at(x) < at(y)
    ensures AllInOrder(at, [x] + order)
  {
    var more := [x] + order;
    forall i, j ensures InOrder(at, more, i, j) {
      if 0 <= i < j < |more| {
        assert more[j] == order[j - 1] && order[j - 1] in order;
        if i > 0 {
          assert more[i] == order[i - 1] && InOrder(at, order, i - 1, j - 1);
        }
      }
    }
  }

  lemma {:induction false} WithoutInOrder(at: string -> int, order: seq<string>, source: string)
    requires AllInOrder(at, order)
    ensures AllInOrder(at, Without(order, source))
  {
    if order != [] {
      RestInOrder(at, order);
      WithoutInOrder(at, order[1..], source);
      WithoutDropsOne(order[1..], source);
      if order[0] != source {
        FirstInOrder(at, order[0], Without(order[1..], source));
      }
    }
  }

  lemma WithoutKeepsOrder(accepted: seq<Entry>, order: seq<string>, source: string)
    requires AllEarlier(accepted, order)
    ensures AllEarlier(accepted, Without(order, source))
  {
    var at := (x: string) => LastOf(accepted, x);
    forall i, j ensures InOrder(at, order, i, j) {
      assert Earlier(accepted, order, i, j);
    }
    WithoutInOrder(at, order, source);
    forall i, j ensures Earlier(accepted, Without(order, source), i, j) {
      assert InOrder(at, Without(order, source), i, j);
    }
  }

  lemma TouchKeepsOrdered(st: Resume, accepted: seq<Entry>, e: Entry, r: Record)
    requires Ordered(st, accepted)
    ensures Ordered(Touch(st, SourceOf(e), r), accepted + [e])
    ensures |Touch(st, SourceOf(e), r).order| <= |st.order| + 1
  {
    var source, after := SourceOf(e), accepted + [e];
    var kept := Without(st.order, source);
    WithoutDropsOne(st.order, source);
    var order := kept + [source];
    WithoutKeepsOrder(accepted, st.order, source);
    forall x ensures LastOf(after, x) == (if x == source then |accepted| else LastOf(accepted, x)) {
      LastOfSnoc(accepted, e, x);
    }
    forall i, j ensures Earlier(after, order, i, j) {
      assert Earlier(accepted, kept, i, j);
      if 0 <= i < |kept| {
        assert kept[i] in kept;
      }
      if 0 <= j < |kept| {
        assert kept[j] in kept;
      }
    }
  }

  lemma EvictKeepsOrdered(st: Resume, accepted: seq<Entry>)
    requires Ordered(st, accepted)
    ensures Ordered(Evict(st), accepted)
  {
    if |st.order| > LOG_BUFFER_CAPACITY {
      var order := st.order[1..];
      forall i, j ensures Earlier(accepted, order, i, j) {
        assert Earlier(accepted, st.order, i + 1, j + 1);
      }
      forall x ensures x in order <==> x in st.order && x != st.order[0] {
        if x in order {
          var i :| 0 <= i < |order| && order[i] == x;
          assert Earlier(accepted, st.order, 0, i + 1);
        }
      }
    }
  }

  lemma AcceptKeepsOrdered(st: Resume, accepted: seq<Entry>, e: Entry)
    requires Ordered(st, accepted) && |st.order| <= LOG_BUFFER_CAPACITY && Accepts(st, e)
    ensures Ordered(AcceptStep(st, e), accepted + [e]) && |AcceptStep(st, e).order| <= LOG_BUFFER_CAPACITY
  {
    var source := SourceOf(e);
    var g := Step(SourceFilter(st, source), e.line);
    if g.record.None? {
      assert source !in st.live;
      forall x ensures x in st.order ==> LastOf(accepted + [e], x) == LastOf(accepted, x) {
        LastOfSnoc(accepted, e, x);
      }
      forall i, j ensures Earlier(accepted + [e], st.order, i, j) {
        assert Earlier(accepted, st.order, i, j);
      }
    } else {
      TouchKeepsOrdered(st, accepted, e, g.record.value);
      EvictKeepsOrdered(Touch(st, source, g.record.value), accepted + [e]);
    }
  }

  lemma {:induction false} LastOfGap(accepted: seq<Entry>, order: seq<string>, j: nat)
    requires j < |order| && AllEarlier(accepted, order)
    ensures LastOf(accepted, order[j]) >= LastOf(accepted, order[0]) + j
  {
    if j > 0 {
      LastOfGap(accepted, order, j - 1);
      assert Earlier(accepted, order, j - 1, j);
    }
  }

  /** When the map is over capacity, none of its first source's accepted lines is left in the viewer's buffer. */
  lemma FirstIsOffScreen(st: Resume, accepted: seq<Entry>)
    requires Ordered(st, accepted) && |st.order| > LOG_BUFFER_CAPACITY
    ensures forall e :: e in Buffer(accepted) ==> SourceOf(e) != st.order[0]
  {
    LastOfGap(accepted, st.order, LOG_BUFFER_CAPACITY);
    var b := Buffer(accepted);
    forall e | e in b ensures SourceOf(e) != st.order[0] {
      var i :| 0 <= i < |b| && b[i] == e;
      assert accepted[|accepted| - |b| + i] == e;
    }
  }

  // ---- what is shown never exceeds the log ----

  ghost predicate Shown(accepted: seq<Entry>, source: string, era: multiset<Line>, l: Line) {
    l.time.Some? ==> LinesFrom(Buffer(accepted), source)[l] <= era[l]
  }

  /** The buffer's stamped lines of a source all date from its record. */
  ghost predicate ShownWithin(accepted: seq<Entry>, source: string, era: multiset<Line>) {
    forall l :: Shown(accepted, source, era, l)
  }

  /** The source's record is exact for its era, from which all its stamped lines in the buffer date. */
  ghost predicate EraExact(h: History, source: string) {
    && RecordExact(Get(h.st.live, source), At(h.era, source))
    && (source !in h.st.live ==> At(h.era, source) == multiset{})
    && ShownWithin(h.accepted, source, At(h.era, source))
  }

  /** The current connection is filtered exactly. */
  ghost predicate ConnectionExact(h: History, source: string) {
    var snapshot := Get(h.st.delivered, source);
    && SnapshotExact(snapshot, At(h.base, source), LinesFrom(h.conn, source))
    && DeliversExact(snapshot, At(h.base, source), LinesFrom(h.conn, source), At(h.took, source))
  }

  ghost predicate SourceExact(h: History, source: string, log: multiset<Line>) {
    && EraExact(h, source) && ConnectionExact(h, source)
    && At(h.era, source) <= At(h.base, source) + At(h.took, source)
    && StampedWithin(At(h.base, source), log)
  }

  lemma EraWithinLog(h: History, source: string, log: multiset<Line>)
    requires SourceExact(h, source, log) && StampedWithin(LinesFrom(h.conn, source), log)
    ensures StampedWithin(At(h.era, source), log)
  {
    var both := At(h.base, source) + At(h.took, source);
    WithinLog(Get(h.st.delivered, source), log, At(h.base, source), LinesFrom(h.conn, source), At(h.took, source));
    forall l ensures Within(At(h.era, source), log, l) {
      assert Within(both, log, l);
    }
  }

  lemma OpenKeepsSource(h: History, source: string, log: multiset<Line>)
    requires SourceExact(h, source, log) && StampedWithin(LinesFrom(h.conn, source), log)
    ensures SourceExact(Next(h, Open), source, log)
  {
    var v := Next(h, Open);
    EraWithinLog(h, source, log);
    OpenedExact(Get(h.st.live, source), At(h.era, source));
    assert At(v.base, source) + At(v.took, source) == At(h.era, source);
  }

  lemma DropKeepsSource(h: History, e: Entry, log: multiset<Line>)
    requires SourceExact(h, SourceOf(e), log) && !Accepts(h.st, e)
    ensures SourceExact(Next(h, Receive(e)), SourceOf(e), log)
  {
    var source, f := SourceOf(e), SourceFilter(h.st, SourceOf(e));
    LinesFromSnoc(h.conn, e, source);
    StepKeepsSnapshot(f, At(h.base, source), LinesFrom(h.conn, source), e.line);
    StepKeepsDelivers(f, At(h.base, source), LinesFrom(h.conn, source), At(h.took, source), e.line);
  }

  lemma ShownGrows(accepted: seq<Entry>, e: Entry, source: string, era: multiset<Line>, after: multiset<Line>)
    requires ShownWithin(accepted, source, era) && era <= after
    requires SourceOf(e) == source && e.line.time.Some? ==> after == era + multiset{e.line}
    ensures ShownWithin(accepted + [e], source, after)
  {
    BufferSnoc(accepted, e, source);
    forall l ensures Shown(accepted + [e], source, after, l) {
      assert Shown(accepted, source, era, l);
    }
  }

  lemma TouchedIsKept(st: Resume, accepted: seq<Entry>, source: string, r: Record)
    requires Ordered(st, accepted)
    ensures Get(Evict(Touch(st, source, r)).live, source) == Some(r)
  {
    var order := Touch(st, source, r).order;
    WithoutDropsOne(st.order, source);
    if |order| > LOG_BUFFER_CAPACITY {
      assert order[0] in Without(st.order, source);
    }
  }

  /** What an accepted entry does to its own source. */
  lemma AcceptHere(h: History, e: Entry)
    requires Accepts(h.st, e) && Ordered(h.st, h.accepted)
    ensures
      var source, v := SourceOf(e), Next(h, Receive(e));
      var g := Step(SourceFilter(h.st, source), e.line);
      && SourceFilter(v.st, source) == g
      && At(v.base, source) == At(h.base, source)
      && At(v.took, source) == At(h.took, source) + multiset{e.line}
      && LinesFrom(v.conn, source) == LinesFrom(h.conn, source) + multiset{e.line}
      && (g.record.Some? ==> At(v.era, source) == At(h.era, source) + multiset{e.line})
      && (g.record.None? ==> source !in h.st.live && At(v.era, source) == multiset{})
  {
    var source := SourceOf(e);
    var g := Step(SourceFilter(h.st, source), e.line);
    LinesFromSnoc(h.conn, e, source);
    if g.record.Some? {
      TouchedIsKept(h.st, h.accepted, source, g.record.value);
    }
  }

  lemma AcceptKeepsConnection(h: History, e: Entry)
    requires ConnectionExact(h, SourceOf(e)) && Accepts(h.st, e) && Ordered(h.st, h.accepted)
    ensures ConnectionExact(Next(h, Receive(e)), SourceOf(e))
  {
    var source := SourceOf(e);
    var f := SourceFilter(h.st, source);
    AcceptHere(h, e);
    StepKeepsSnapshot(f, At(h.base, source), LinesFrom(h.conn, source), e.line);
    StepKeepsDelivers(f, At(h.base, source), LinesFrom(h.conn, source), At(h.took, source), e.line);
  }

  lemma AcceptKeepsEra(h: History, e: Entry)
    requires EraExact(h, SourceOf(e)) && Accepts(h.st, e) && Ordered(h.st, h.accepted)
    ensures EraExact(Next(h, Receive(e)), SourceOf(e))
  {
    var source := SourceOf(e);
    AcceptHere(h, e);
    NoteKeepsExact(SourceFilter(h.st, source).record, At(h.era, source), e.line);
    ShownGrows(h.accepted, e, source, At(h.era, source), At(Next(h, Receive(e)).era, source));
  }

  lemma AcceptKeepsSource(h: History, e: Entry, log: multiset<Line>)
    requires SourceExact(h, SourceOf(e), log) && Accepts(h.st, e) && Ordered(h.st, h.accepted)
    ensures SourceExact(Next(h, Receive(e)), SourceOf(e), log)
  {
    AcceptKeepsConnection(h, e);
    AcceptKeepsEra(h, e);
    AcceptHere(h, e);
  }

  lemma DeliveredElsewhere(st: Resume, e: Entry, source: string)
    requires SourceOf(e) != source
    ensures Get(AcceptStep(st, e).delivered, source) == Get(st.delivered, source)
    ensures !Accepts(st, e) ==> AcceptStep(st, e).live == st.live
  {
  }

  /** An entry leaves every other source alone, except that it may push one out of the map. */
  lemma ReceiveElsewhere(h: History, e: Entry, source: string)
    requires SourceOf(e) != source
    ensures
      var v := Next(h, Receive(e));
      && Get(v.st.delivered, source) == Get(h.st.delivered, source)
      && At(v.base, source) == At(h.base, source) && At(v.took, source) == At(h.took, source)
      && LinesFrom(v.conn, source) == LinesFrom(h.conn, source)
      && (!Accepts(h.st, e) ==> v.st.live == h.st.live && v.era == h.era && v.accepted == h.accepted)
  {
    DeliveredElsewhere(h.st, e, source);
    LinesFromSnoc(h.conn, e, source);
  }

  lemma AcceptElsewhere(h: History, e: Entry, source: string)
    requires SourceOf(e) != source && Accepts(h.st, e)
    ensures
      var v := Next(h, Receive(e));
      if source in v.st.live
      then Get(v.st.live, source) == Get(h.st.live, source) && At(v.era, source) == At(h.era, source)
      else At(v.era, source) == multiset{}
  {
  }

  ghost predicate OffScreen(h: History, source: string) {
    forall e :: e in Buffer(h.accepted) ==> SourceOf(e) != source
  }

  /** An event that drops a source from the map drops the first. */
  lemma DroppedIsFirst(h: History, event: Event, source: string)
    requires Ordered(h.st, h.accepted) && source in h.st.live && source !in Next(h, event).st.live
    ensures OffScreen(Next(h, event), source)
  {
    var e := event.entry;
    var r := Step(SourceFilter(h.st, SourceOf(e)), e.line).record.value;
    var touched := Touch(h.st, SourceOf(e), r);
    TouchKeepsOrdered(h.st, h.accepted, e, r);
    EvictDropsFirst(touched, h.accepted + [e], source);
  }

  lemma EvictDropsFirst(st: Resume, accepted: seq<Entry>, source: string)
    requires Ordered(st, accepted) && source in st.live && source !in Evict(st).live
    ensures forall e :: e in Buffer(accepted) ==> SourceOf(e) != source
  {
    FirstIsOffScreen(st, accepted);
  }

  lemma EvictionKeepsShown(h: History, e: Entry, source: string)
    requires Ordered(h.st, h.accepted) && Accepts(h.st, e) && SourceOf(e) != source
    requires source in h.st.live && source !in AcceptStep(h.st, e).live
    ensures ShownWithin(h.accepted + [e], source, multiset{})
  {
    DroppedIsFirst(h, Receive(e), source);
    LinesFromNone(Buffer(h.accepted + [e]), source);
    forall l ensures Shown(h.accepted + [e], source, multiset{}, l) {
    }
  }

  lemma OtherSourceKept(h: History, e: Entry, source: string, log: multiset<Line>)
    requires SourceExact(h, source, log) && SourceOf(e) != source && Ordered(h.st, h.accepted)
    ensures SourceExact(Next(h, Receive(e)), source, log)
  {
    var v := Next(h, Receive(e));
    ReceiveElsewhere(h, e, source);
    if Accepts(h.st, e) {
      AcceptElsewhere(h, e, source);
      if source in v.st.live {
        ShownGrows(h.accepted, e, source, At(h.era, source), At(h.era, source));
      } else if source in h.st.live {
        EvictionKeepsShown(h, e, source);
      } else {
        ShownGrows(h.accepted, e, source, multiset{}, multiset{});
      }
      if source !in v.st.live {
        assert RecordExact(None, multiset{});
      }
    }
  }

  // ---- whole runs ----

  /** What the current connection has sent of a source: each position of its log at most once. */
  ghost predicate SentWithin(events: seq<Event>, log: multiset<Line>, source: string) {
    StampedWithin(LinesFrom(Run(events).conn, source), log)
  }

  ghost predicate SendsOnce(events: seq<Event>, log: multiset<Line>, source: string) {
    forall i :: 0 <= i <= |events| ==> SentWithin(events[..i], log, source)
  }

  lemma {:induction false} RunIsOrdered(events: seq<Event>)
    ensures Ordered(Run(events).st, Run(events).accepted)
    ensures |Run(events).st.order| <= LOG_BUFFER_CAPACITY
  {
    if events != [] {
      var h, event := Run(events[..|events| - 1]), events[|events| - 1];
      RunIsOrdered(events[..|events| - 1]);
      if event.Receive? && Accepts(h.st, event.entry) {
        AcceptKeepsOrdered(h.st, h.accepted, event.entry);
      }
    }
  }

  lemma {:induction false} RunIsExact(events: seq<Event>, log: multiset<Line>, source: string)
    requires SendsOnce(events, log, source)
    ensures SourceExact(Run(events), source, log)
  {
    if events == [] {
      var h := Run([]);
      OpenedExact(None, multiset{});
      forall l ensures Within(multiset{}, log, l) && Shown(h.accepted, source, multiset{}, l) {
      }
    } else {
      var init, event := events[..|events| - 1], events[|events| - 1];
      var h := Run(init);
      forall i | 0 <= i <= |init| ensures SentWithin(init[..i], log, source) {
        assert init[..i] == events[..i] && SentWithin(events[..i], log, source);
      }
      RunIsExact(init, log, source);
      RunIsOrdered(init);
      assert init[..|init|] == init && SentWithin(init[..|init|], log, source);
      match event
      case Open => OpenKeepsSource(h, source, log);
      case Receive(e) =>
        if SourceOf(e) == source {
          if Accepts(h.st, e) {
            AcceptKeepsSource(h, e, log);
          } else {
            DropKeepsSource(h, e, log);
          }
        } else {
          OtherSourceKept(h, e, source, log);
        }
    }
  }

  /** Over any run of reconnects and evictions, the buffer never holds a stamped line of a source more often than the
      source's log does, as long as one connection sends each log position at most once. */
  lemma SourceWithinLog(events: seq<Event>, log: multiset<Line>, source: string)
    requires SendsOnce(events, log, source)
    ensures StampedWithin(LinesFrom(Buffer(Run(events).accepted), source), log)
  {
    var h := Run(events);
    RunIsExact(events, log, source);
    assert events[..|events|] == events && SentWithin(events[..|events|], log, source);
    EraWithinLog(h, source, log);
    forall l ensures Within(LinesFrom(Buffer(h.accepted), source), log, l) {
      assert Shown(h.accepted, source, At(h.era, source), l) && Within(At(h.era, source), log, l);
    }
  }

  /** In every run: when an event drops a source from the map, none of its accepted lines is left in the buffer. */
  lemma DroppedIsOffScreen(events: seq<Event>, event: Event, source: string)
    requires source in Run(events).st.live && source !in Next(Run(events), event).st.live
    ensures OffScreen(Next(Run(events), event), source)
  {
    RunIsOrdered(events);
    DroppedIsFirst(Run(events), event, source);
  }

  // ---- a source that stays in the map is shown as the server's rule delivers it ----

  /** An event does not drop the source from the map. */
  ghost predicate Keeps(h: History, event: Event, source: string) {
    source in h.st.live ==> source in Next(h, event).st.live
  }

  ghost predicate KeptAt(events: seq<Event>, i: int, source: string) {
    0 <= i < |events| ==> Keeps(Run(events[..i]), events[i], source)
  }

  ghost predicate NeverEvicted(events: seq<Event>, source: string) {
    forall i :: KeptAt(events, i, source)
  }

  lemma NeverEvictedInit(events: seq<Event>, source: string)
    requires events != [] && NeverEvicted(events, source)
    ensures NeverEvicted(events[..|events| - 1], source)
    ensures Keeps(Run(events[..|events| - 1]), events[|events| - 1], source)
  {
    var init := events[..|events| - 1];
    forall i ensures KeptAt(init, i, source) {
      if 0 <= i < |init| {
        assert KeptAt(events, i, source) && init[..i] == events[..i];
      }
    }
    assert KeptAt(events, |events| - 1, source);
  }

  /** The lines of one source, connection by connection. */
  ghost function WindowsOf(events: seq<Event>, source: string): (r: seq<seq<Line>>)
    ensures r != []
  {
    if events == [] then [[]]
    else
      var r := WindowsOf(events[..|events| - 1], source);
      match events[|events| - 1]
      case Open => r + [[]]
      case Receive(e) =>
        if SourceOf(e) == source then AddLine(r, e.line) else r
  }

  /** The accepted lines of one source, in order. */
  ghost function ShownLines(accepted: seq<Entry>, source: string): seq<Line> {
    if accepted == [] then []
    else
      var e := accepted[|accepted| - 1];
      ShownLines(accepted[..|accepted| - 1], source) + (if SourceOf(e) == source then [e.line] else [])
  }

  lemma ShownLinesSnoc(accepted: seq<Entry>, e: Entry, source: string)
    ensures ShownLines(accepted + [e], source)
            == ShownLines(accepted, source) + (if SourceOf(e) == source then [e.line] else [])
  {
    assert (accepted + [e])[..|accepted|] == accepted;
  }

  /** Where the server's rule stands after these connections. */
  ghost function ServerSide(windows: seq<seq<Line>>): Scanned
    requires windows != []
  {
    Scan(Opened(Follow(windows[..|windows| - 1]).record), windows[|windows| - 1])
  }

  ghost predicate Agrees(h: History, source: string, windows: seq<seq<Line>>)
    requires windows != []
  {
    && SourceFilter(h.st, source) == ServerSide(windows).filter
    && ShownLines(h.accepted, source) == Follow(windows).out
  }

  function AddLine(windows: seq<seq<Line>>, line: Line): (r: seq<seq<Line>>)
    requires windows != []
    ensures r != []
  {
    var n := |windows| - 1;
    windows[n := windows[n] + [line]]
  }

  lemma ServerSideGrows(windows: seq<seq<Line>>, line: Line)
    requires windows != []
    ensures
      var f := ServerSide(windows).filter;
      && ServerSide(AddLine(windows, line)).filter == Step(f, line)
      && Follow(AddLine(windows, line)).out == Follow(windows).out + (if Drops(f, line) then [] else [line])
  {
    var n := |windows| - 1;
    assert AddLine(windows, line)[..n] == windows[..n];
    ScanSnoc(Opened(Follow(windows[..n]).record), windows[n], line);
  }

  lemma ReceiveFilters(h: History, e: Entry, source: string)
    requires Ordered(h.st, h.accepted) && Keeps(h, Receive(e), source)
    ensures
      var v, f := Next(h, Receive(e)), SourceFilter(h.st, source);
      && SourceFilter(v.st, source) == (if SourceOf(e) == source then Step(f, e.line) else f)
      && ShownLines(v.accepted, source)
         == ShownLines(h.accepted, source) + (if SourceOf(e) != source || Drops(f, e.line) then [] else [e.line])
  {
    ShownLinesSnoc(h.accepted, e, source);
    if SourceOf(e) != source {
      ReceiveElsewhere(h, e, source);
      if Accepts(h.st, e) {
        AcceptElsewhere(h, e, source);
      }
    } else if Accepts(h.st, e) {
      AcceptHere(h, e);
    }
  }

  /** The browser accepts from a source that it never evicts exactly the lines that the server's rule delivers from the
      same connections. */
  lemma {:induction false} SourceFollowsServerRule(events: seq<Event>, source: string)
    requires NeverEvicted(events, source)
    ensures Agrees(Run(events), source, WindowsOf(events, source))
  {
    if events == [] {
      assert Follow([]) == Followed(None, []);
      var one: seq<seq<Line>> := [[]];
      assert one[..0] == [] && Scan(Opened(None), []) == Scanned(Opened(None), [], []);
    } else {
      var init, event := events[..|events| - 1], events[|events| - 1];
      var h, windows := Run(init), WindowsOf(init, source);
      NeverEvictedInit(events, source);
      SourceFollowsServerRule(init, source);
      RunIsOrdered(init);
      match event
      case Open =>
        assert (windows + [[]])[..|windows|] == windows;
        assert ServerSide(windows + [[]]) == Scan(Opened(Follow(windows).record), []);
      case Receive(e) =>
        ReceiveFilters(h, e, source);
        ServerSideGrows(windows, e.line);
    }
  }

  // ---- nothing is evicted while there are no more sources than the map holds ----

  ghost function SourcesOf(events: seq<Event>): set<string> {
    set event | event in events && event.Receive? :: SourceOf(event.entry)
  }

  lemma {:induction false} DistinctFits(order: seq<string>, all: set<string>)
    requires Distinct(order) && forall x :: x in order ==> x in all
    ensures |order| <= |all|
  {
    if order != [] {
      DistinctFits(order[1..], all - {order[0]});
    }
  }

  lemma OrderFits(st: Resume, accepted: seq<Entry>, all: set<string>)
    requires Ordered(st, accepted) && st.live.Keys <= all
    ensures |st.order| <= |all|
  {
    forall i, j | 0 <= i < j < |st.order| ensures st.order[i] != st.order[j] {
      assert Earlier(accepted, st.order, i, j);
    }
    DistinctFits(st.order, all);
  }

  lemma AcceptEvictsNothing(st: Resume, accepted: seq<Entry>, e: Entry, all: set<string>)
    requires Ordered(st, accepted) && Accepts(st, e)
    requires st.live.Keys <= all && SourceOf(e) in all && |all| <= LOG_BUFFER_CAPACITY
    ensures AcceptStep(st, e).live
            == match Step(SourceFilter(st, SourceOf(e)), e.line).record
               case None => st.live
               case Some(r) => st.live[SourceOf(e) := r]
  {
    var g := Step(SourceFilter(st, SourceOf(e)), e.line);
    if g.record.Some? {
      var touched := Touch(st, SourceOf(e), g.record.value);
      TouchKeepsOrdered(st, accepted, e, g.record.value);
      OrderFits(touched, accepted + [e], all);
    }
  }

  lemma {:induction false} RunKeepsToSources(events: seq<Event>, all: set<string>)
    requires SourcesOf(events) <= all
    ensures Run(events).st.live.Keys <= all
  {
    if events != [] {
      var init, event := events[..|events| - 1], events[|events| - 1];
      forall x | x in SourcesOf(init) ensures x in SourcesOf(events) {
      }
      RunKeepsToSources(init, all);
      if event.Receive? {
        assert SourceOf(event.entry) in SourcesOf(events);
      }
    }
  }

  lemma FewSourcesAreKept(events: seq<Event>, source: string)
    requires |SourcesOf(events)| <= LOG_BUFFER_CAPACITY
    ensures NeverEvicted(events, source)
  {
    var all := SourcesOf(events);
    forall i ensures KeptAt(events, i, source) {
      if 0 <= i < |events| {
        var init := events[..i];
        forall x | x in SourcesOf(init) ensures x in all {
          var event :| event in init && event.Receive? && SourceOf(event.entry) == x;
          assert event in events;
        }
        RunIsOrdered(init);
        RunKeepsToSources(init, all);
        StepKeepsAll(Run(init), events[i], source, all);
      }
    }
  }

  lemma StepKeepsAll(h: History, event: Event, source: string, all: set<string>)
    requires Ordered(h.st, h.accepted) && h.st.live.Keys <= all && |all| <= LOG_BUFFER_CAPACITY
    requires event.Receive? ==> SourceOf(event.entry) in all
    ensures Keeps(h, event, source)
  {
    if event.Receive? && Accepts(h.st, event.entry) {
      AcceptEvictsNothing(h.st, h.accepted, event.entry, all);
    }
  }
}
