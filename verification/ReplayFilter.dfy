/**
 The replay rule that kd applies to a log that is attached to more than once: remember the newest
 delivered stamp and how often each text was delivered at it; on a re-attach drop what is older, and
 at that stamp drop each text only as often as it was delivered.

 The server (internal/api/logstream.go) and the browser (web/src/logResume.ts) both follow this rule;
 this module is the specification that both are proved against.
 */
module ReplayFilter {
  import opened Prelude

  /** A log line; `time` is None when the line carries no stamp. */
  datatype Line = Line(time: Option<int>, text: string)

  datatype Record = Record(stamp: int, lines: map<string, nat>)

  function CountOf(lines: map<string, nat>, text: string): nat {
    if text in lines then lines[text] else 0
  }

  /** `snapshot` is the copy taken when the connection opened, used up as lines are dropped;
      `record` is what the next connection will start from. */
  datatype Filter = Filter(snapshot: Option<Record>, record: Option<Record>)

  function Opened(record: Option<Record>): Filter {
    Filter(record, record)
  }

  predicate Older(f: Filter, line: Line) {
    f.snapshot.Some? && line.time.Some? && line.time.value < f.snapshot.value.stamp
  }

  predicate Repeated(f: Filter, line: Line) {
    && f.snapshot.Some? && line.time.Some?
    && line.time.value == f.snapshot.value.stamp
    && CountOf(f.snapshot.value.lines, line.text) > 0
  }

  predicate Drops(f: Filter, line: Line) {
    Older(f, line) || Repeated(f, line)
  }

  function UseUp(r: Record, text: string): Record
    requires CountOf(r.lines, text) > 0
  {
    r.(lines := r.lines[text := CountOf(r.lines, text) - 1])
  }

  /** What a delivered line leaves in the record. */
  function Note(record: Option<Record>, line: Line): Option<Record> {
    if line.time.None? then record
    else
      var t := line.time.value;
      var r := if record.None? || t > record.value.stamp then Record(t, map[]) else record.value;
      Some(if t == r.stamp then r.(lines := r.lines[line.text := CountOf(r.lines, line.text) + 1]) else r)
  }

  function Step(f: Filter, line: Line): Filter {
    if Older(f, line) then f
    else if Repeated(f, line) then f.(snapshot := Some(UseUp(f.snapshot.value, line.text)))
    else f.(record := Note(f.record, line))
  }

  datatype Scanned = Scanned(filter: Filter, out: seq<Line>, dropped: seq<Line>)

  /** The filter run over the lines of one connection, in order. */
  function Scan(f: Filter, window: seq<Line>): Scanned {
    if window == [] then Scanned(f, [], [])
    else
      var s := Scan(f, window[..|window| - 1]);
      var line := window[|window| - 1];
      if Drops(s.filter, line)
      then Scanned(Step(s.filter, line), s.out, s.dropped + [line])
      else Scanned(Step(s.filter, line), s.out + [line], s.dropped)
  }

  lemma ScanSnoc(f: Filter, window: seq<Line>, line: Line)
    ensures
      var s := Scan(f, window);
      var t := Scan(f, window + [line]);
      && t.filter == Step(s.filter, line)
      && t.out == (if Drops(s.filter, line) then s.out else s.out + [line])
      && t.dropped == (if Drops(s.filter, line) then s.dropped + [line] else s.dropped)
  {
    assert (window + [line])[..|window|] == window;
  }

  // ---- what the record and the snapshot mean ----

  ghost predicate NotAfter(stamp: int, delivered: multiset<Line>, l: Line) {
    l in delivered && l.time.Some? ==> l.time.value <= stamp
  }

  ghost predicate Counted(r: Record, delivered: multiset<Line>, text: string) {
    CountOf(r.lines, text) == delivered[Line(Some(r.stamp), text)]
  }

  ghost predicate Unstamped(delivered: multiset<Line>, l: Line) {
    l in delivered ==> l.time.None?
  }

  /** The record is exact for the delivered lines: its stamp is their newest, and its counts are how
      often each text was delivered at that stamp. */
  ghost predicate RecordExact(record: Option<Record>, delivered: multiset<Line>) {
    match record
    case None => forall l :: Unstamped(delivered, l)
    case Some(r) =>
      && (forall l :: NotAfter(r.stamp, delivered, l))
      && (forall text :: Counted(r, delivered, text))
      && (exists text :: Line(Some(r.stamp), text) in delivered)
  }

  ghost predicate Left(r: Record, before: multiset<Line>, read: multiset<Line>, text: string) {
    CountOf(r.lines, text) == Excess(before[Line(Some(r.stamp), text)], read[Line(Some(r.stamp), text)])
  }

  /** After the lines `read`, a snapshot that started exact for `before` still stands for the part of
      `before` at its stamp that has not come back yet. */
  ghost predicate SnapshotExact(snapshot: Option<Record>, before: multiset<Line>, read: multiset<Line>) {
    match snapshot
    case None => forall l :: Unstamped(before, l)
    case Some(r) =>
      && (forall l :: NotAfter(r.stamp, before, l))
      && (forall text :: Left(r, before, read, text))
  }

  function Excess(a: nat, b: nat): nat {
    if a > b then a - b else 0
  }

  /** How many copies of a stamped line one connection delivers, having read `read` and started with
      `before` delivered: none below the snapshot's stamp, the excess at it, every copy above it. */
  ghost function Delivers(snapshot: Option<Record>, before: multiset<Line>, read: multiset<Line>, l: Line): nat
    requires l.time.Some?
  {
    if snapshot.None? || l.time.value > snapshot.value.stamp then read[l]
    else if l.time.value < snapshot.value.stamp then 0
    else Excess(read[l], before[l])
  }

  lemma NoteKeepsExact(record: Option<Record>, delivered: multiset<Line>, line: Line)
    requires RecordExact(record, delivered)
    ensures RecordExact(Note(record, line), delivered + multiset{line})
  {
    var after := delivered + multiset{line};
    if Note(record, line).None? {
      forall l ensures Unstamped(after, l) {
        assert Unstamped(delivered, l);
      }
    } else {
      var r := Note(record, line).value;
      forall l ensures NotAfter(r.stamp, after, l) {
        assert record.Some? ==> NotAfter(record.value.stamp, delivered, l);
        assert record.None? ==> Unstamped(delivered, l);
      }
      forall text ensures Counted(r, after, text) {
        var at := Line(Some(r.stamp), text);
        assert record.Some? ==> Counted(record.value, delivered, text) && NotAfter(record.value.stamp, delivered, at);
        assert record.None? ==> Unstamped(delivered, at);
      }
      if line.time == Some(r.stamp) {
        assert Line(Some(r.stamp), line.text) in after;
      } else {
        var text :| Line(Some(r.stamp), text) in delivered;
        assert Line(Some(r.stamp), text) in after;
      }
    }
  }

  ghost predicate DeliveredAs(snapshot: Option<Record>, before: multiset<Line>, read: multiset<Line>,
                              out: multiset<Line>, l: Line)
  {
    l.time.Some? ==> out[l] == Delivers(snapshot, before, read, l)
  }

  ghost predicate DeliversExact(snapshot: Option<Record>, before: multiset<Line>, read: multiset<Line>,
                                out: multiset<Line>)
  {
    forall l :: DeliveredAs(snapshot, before, read, out, l)
  }

  /** One line read: the snapshot stays exact ... */
  lemma StepKeepsSnapshot(f: Filter, before: multiset<Line>, read: multiset<Line>, line: Line)
    requires SnapshotExact(f.snapshot, before, read)
    ensures SnapshotExact(Step(f, line).snapshot, before, read + multiset{line})
  {
    if f.snapshot.Some? {
      var r, after := f.snapshot.value, Step(f, line).snapshot.value;
      forall l ensures NotAfter(after.stamp, before, l) {
        assert NotAfter(r.stamp, before, l);
      }
      forall text ensures Left(after, before, read + multiset{line}, text) {
        assert Left(r, before, read, text);
      }
    }
  }

  /** ... and the line is delivered exactly when `Delivers` grows. */
  lemma StepKeepsDelivers(f: Filter, before: multiset<Line>, read: multiset<Line>, out: multiset<Line>, line: Line)
    requires SnapshotExact(f.snapshot, before, read) && DeliversExact(f.snapshot, before, read, out)
    ensures DeliversExact(Step(f, line).snapshot, before, read + multiset{line},
                          if Drops(f, line) then out else out + multiset{line})
  {
    var snapshot, readAfter := Step(f, line).snapshot, read + multiset{line};
    var outAfter := if Drops(f, line) then out else out + multiset{line};
    forall l ensures DeliveredAs(snapshot, before, readAfter, outAfter, l) {
      assert DeliveredAs(f.snapshot, before, read, out, l);
      assert f.snapshot.Some? ==> Left(f.snapshot.value, before, read, line.text);
    }
  }

  lemma OpenedExact(record: Option<Record>, before: multiset<Line>)
    requires RecordExact(record, before)
    ensures SnapshotExact(record, before, multiset{})
    ensures DeliversExact(record, before, multiset{}, multiset{})
  {
    if record.Some? {
      forall text ensures Left(record.value, before, multiset{}, text) {
        assert Counted(record.value, before, text);
      }
    }
  }

  /** One whole connection, for the snapshot and the delivered lines ... */
  lemma {:induction false} ScanSnapshotExact(record: Option<Record>, before: multiset<Line>, window: seq<Line>)
    requires RecordExact(record, before)
    ensures SnapshotExact(Scan(Opened(record), window).filter.snapshot, before, multiset(window))
    ensures DeliversExact(Scan(Opened(record), window).filter.snapshot, before, multiset(window),
                          multiset(Scan(Opened(record), window).out))
  {
    if window == [] {
      OpenedExact(record, before);
    } else {
      var init, line := window[..|window| - 1], window[|window| - 1];
      assert window == init + [line];
      ScanSnapshotExact(record, before, init);
      var s := Scan(Opened(record), init);
      StepKeepsSnapshot(s.filter, before, multiset(init), line);
      StepKeepsDelivers(s.filter, before, multiset(init), multiset(s.out), line);
    }
  }

  /** ... and for the record it leaves behind. */
  lemma {:induction false} ScanRecordExact(record: Option<Record>, before: multiset<Line>, window: seq<Line>)
    requires RecordExact(record, before)
    ensures RecordExact(Scan(Opened(record), window).filter.record, before + multiset(Scan(Opened(record), window).out))
  {
    var t := Scan(Opened(record), window);
    if window == [] {
      assert before + multiset(t.out) == before;
    } else {
      var init, line := window[..|window| - 1], window[|window| - 1];
      ScanRecordExact(record, before, init);
      var s := Scan(Opened(record), init);
      if !Drops(s.filter, line) {
        NoteKeepsExact(s.filter.record, before + multiset(s.out), line);
        assert before + multiset(s.out) + multiset{line} == before + multiset(t.out);
      }
    }
  }

  /** Nothing is lost silently: every line of a connection is delivered or dropped; an unstamped line
      is never dropped; a dropped line is older than the last stamp or carries that stamp and a text
      already delivered at it, and each such text is dropped at most as often as it was delivered. */
  lemma DroppedWasDelivered(record: Option<Record>, before: multiset<Line>, window: seq<Line>)
    requires RecordExact(record, before)
    ensures
      var s := Scan(Opened(record), window);
      && multiset(s.out) + multiset(s.dropped) == multiset(window)
      && forall l :: l in s.dropped ==>
           && record.Some? && l.time.Some?
           && (|| l.time.value < record.value.stamp
               || (l.time.value == record.value.stamp && multiset(s.dropped)[l] <= before[l]))
  {
    var s := Scan(Opened(record), window);
    Partition(Opened(record), window);
    ScanSnapshotExact(record, before, window);
    SnapshotStamp(Opened(record), window);
    forall l | l in s.dropped
      ensures
        && record.Some? && l.time.Some?
        && (|| l.time.value < record.value.stamp
            || (l.time.value == record.value.stamp && multiset(s.dropped)[l] <= before[l]))
    {
      DroppedLine(Opened(record), window, l);
      assert DeliveredAs(s.filter.snapshot, before, multiset(window), multiset(s.out), l);
      assert multiset(s.out)[l] + multiset(s.dropped)[l] == multiset(window)[l];
    }
  }

  lemma {:induction false} Partition(f: Filter, window: seq<Line>)
    ensures var s := Scan(f, window); multiset(s.out) + multiset(s.dropped) == multiset(window)
  {
    if window != [] {
      var init, line := window[..|window| - 1], window[|window| - 1];
      Partition(f, init);
      ScanSnoc(f, init, line);
      assert window == init + [line];
      assert multiset(window) == multiset(init) + multiset{line};
    }
  }

  lemma {:induction false} DroppedLine(f: Filter, window: seq<Line>, l: Line)
    requires l in Scan(f, window).dropped
    ensures f.snapshot.Some? && l.time.Some? && l.time.value <= f.snapshot.value.stamp
  {
    SnapshotStamp(f, window[..|window| - 1]);
    if l in Scan(f, window[..|window| - 1]).dropped {
      DroppedLine(f, window[..|window| - 1], l);
    }
  }

  lemma {:induction false} SnapshotStamp(f: Filter, window: seq<Line>)
    ensures Scan(f, window).filter.snapshot.Some? <==> f.snapshot.Some?
    ensures f.snapshot.Some? ==> Scan(f, window).filter.snapshot.value.stamp == f.snapshot.value.stamp
  {
    if window != [] {
      SnapshotStamp(f, window[..|window| - 1]);
    }
  }

  // ---- many connections ----

  datatype Followed = Followed(record: Option<Record>, out: seq<Line>)

  /** The lines delivered over a series of connections, each filtered by the record of the one before. */
  function Follow(windows: seq<seq<Line>>): Followed {
    if windows == [] then Followed(None, [])
    else
      var p := Follow(windows[..|windows| - 1]);
      var s := Scan(Opened(p.record), windows[|windows| - 1]);
      Followed(s.filter.record, p.out + s.out)
  }

  ghost predicate Within(a: multiset<Line>, b: multiset<Line>, l: Line) {
    l.time.Some? ==> a[l] <= b[l]
  }

  /** The stamped lines of `a` form a sub-multiset of `b`. */
  ghost predicate StampedWithin(a: multiset<Line>, b: multiset<Line>) {
    forall l :: Within(a, b, l)
  }

  lemma {:induction false} FollowRecordExact(windows: seq<seq<Line>>)
    ensures RecordExact(Follow(windows).record, multiset(Follow(windows).out))
  {
    if windows == [] {
    } else {
      FollowRecordExact(windows[..|windows| - 1]);
      var p := Follow(windows[..|windows| - 1]);
      var s := Scan(Opened(p.record), windows[|windows| - 1]);
      ScanRecordExact(p.record, multiset(p.out), windows[|windows| - 1]);
      assert multiset(p.out + s.out) == multiset(p.out) + multiset(s.out);
    }
  }

  /** At most once: whatever tails the connections re-send, the stamped lines delivered over all of
      them form a sub-multiset of the log. */
  lemma {:induction false} FollowAtMostOnce(log: multiset<Line>, windows: seq<seq<Line>>)
    requires forall w :: w in windows ==> StampedWithin(multiset(w), log)
    ensures StampedWithin(multiset(Follow(windows).out), log)
  {
    if windows == [] {
    } else {
      var last := windows[|windows| - 1];
      FollowAtMostOnce(log, windows[..|windows| - 1]);
      FollowRecordExact(windows[..|windows| - 1]);
      var p := Follow(windows[..|windows| - 1]);
      ConnectionWithin(log, p.record, multiset(p.out), last);
      assert multiset(p.out + Scan(Opened(p.record), last).out)
             == multiset(p.out) + multiset(Scan(Opened(p.record), last).out);
    }
  }

  /** One connection never pushes a stamped line past its count in the log. */
  lemma ConnectionWithin(log: multiset<Line>, record: Option<Record>, before: multiset<Line>, window: seq<Line>)
    requires RecordExact(record, before) && StampedWithin(before, log) && StampedWithin(multiset(window), log)
    ensures StampedWithin(before + multiset(Scan(Opened(record), window).out), log)
  {
    ScanSnapshotExact(record, before, window);
    WithinLog(Scan(Opened(record), window).filter.snapshot, log, before, multiset(window),
              multiset(Scan(Opened(record), window).out));
  }

  lemma WithinLog(snapshot: Option<Record>, log: multiset<Line>, before: multiset<Line>, read: multiset<Line>,
                  out: multiset<Line>)
    requires SnapshotExact(snapshot, before, read) && DeliversExact(snapshot, before, read, out)
    requires StampedWithin(before, log) && StampedWithin(read, log)
    ensures StampedWithin(before + out, log)
  {
    forall l ensures Within(before + out, log, l) {
      assert DeliveredAs(snapshot, before, read, out, l);
      assert Within(before, log, l) && Within(read, log, l);
      assert snapshot.Some? ==> NotAfter(snapshot.value.stamp, before, l);
      assert snapshot.None? ==> Unstamped(before, l);
    }
  }
}
