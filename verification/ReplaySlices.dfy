/**
 When a log that is attached to more than once is delivered as one contiguous slice: exactly when no line that is new
 repeats a delivered line that the tail leaves out.
 */
module ReplaySlices {
  import opened Prelude
  import opened ReplayFilter

  ghost predicate InOrder(log: seq<Line>, i: int, j: int) {
    0 <= i <= j < |log| ==> log[i].time.Some? && log[j].time.Some? && log[i].time.value <= log[j].time.value
  }

  /** Every line is stamped and the stamps do not go back. */
  ghost predicate Sorted(log: seq<Line>) {
    forall i, j :: InOrder(log, i, j)
  }

  /** The lines from `i` up to `j`, none when `j` does not lie past `i`. */
  function From(log: seq<Line>, i: nat, j: nat): seq<Line>
    requires j <= |log|
  {
    if j <= i then [] else From(log, i, j - 1) + [log[j - 1]]
  }

  lemma SliceSnoc(log: seq<Line>, i: nat, j: nat)
    requires i <= j < |log|
    ensures log[i..j + 1] == log[i..j] + [log[j]]
  {
  }

  lemma SliceJoins(log: seq<Line>, i: nat, j: nat, k: nat)
    requires i <= j <= k <= |log|
    ensures log[i..j] + log[j..k] == log[i..k]
  {
  }

  lemma {:induction false} FromIsSlice(log: seq<Line>, i: nat, j: nat)
    requires i <= j <= |log|
    ensures From(log, i, j) == log[i..j]
  {
    if i < j {
      FromIsSlice(log, i, j - 1);
      SliceSnoc(log, i, j - 1);
    } else {
      assert log[i..j] == [];
    }
  }

  lemma {:induction false} FromLength(log: seq<Line>, i: nat, j: nat)
    requires j <= |log|
    ensures |From(log, i, j)| == if j > i then j - i else 0
  {
    if j > i {
      FromLength(log, i, j - 1);
    }
  }

  // ---- counting lines in parts of the log ----

  /** How often a line occurs from `i` up to `j`. */
  function CountIn(log: seq<Line>, i: nat, j: nat, l: Line): nat
    requires j <= |log|
  {
    if j <= i then 0 else CountIn(log, i, j - 1, l) + if log[j - 1] == l then 1 else 0
  }

  lemma {:induction false} CountOfSlice(log: seq<Line>, i: nat, j: nat, l: Line)
    requires i <= j <= |log|
    ensures multiset(log[i..j])[l] == CountIn(log, i, j, l)
  {
    if i < j {
      CountOfSlice(log, i, j - 1, l);
      SliceSnoc(log, i, j - 1);
    }
  }

  lemma {:induction false} SplitCount(log: seq<Line>, i: nat, j: nat, k: nat, l: Line)
    requires i <= j <= k <= |log|
    ensures CountIn(log, i, k, l) == CountIn(log, i, j, l) + CountIn(log, j, k, l)
  {
    if j < k {
      SplitCount(log, i, j, k - 1, l);
    }
  }

  lemma {:induction false} NoCount(log: seq<Line>, i: nat, j: nat, l: Line)
    requires i <= j <= |log| && forall k :: i <= k < j ==> log[k] != l
    ensures CountIn(log, i, j, l) == 0
  {
    if i < j {
      NoCount(log, i, j - 1, l);
    }
  }

  lemma {:induction false} SomeCount(log: seq<Line>, i: nat, j: nat, k: nat)
    requires i <= k < j <= |log|
    ensures CountIn(log, i, j, log[k]) > 0
  {
    if k < j - 1 {
      SomeCount(log, i, j - 1, k);
    }
  }

  // ---- one re-attach ----

  /** The delivered slice's last line carries the stamp that the snapshot remembers. */
  ghost predicate RemembersEnd(f: Filter, log: seq<Line>, end: nat) {
    0 < end <= |log| && f.snapshot.Some? && log[end - 1].time == Some(f.snapshot.value.stamp)
  }

  /** Line `i` lies in the delivered slice log[start..end], or its like left out before `a` outnumber its like read
      past the slice. */
  ghost predicate IsLost(log: seq<Line>, start: nat, end: nat, a: nat, i: nat)
    requires end <= |log| && a <= |log| && i < |log|
  {
    i < end || CountIn(log, start, a, log[i]) > CountIn(log, end, i, log[i])
  }

  /** Which lines of a re-attach that began at `a` are dropped. */
  lemma DropsExactly(f: Filter, log: seq<Line>, start: nat, end: nat, a: nat, i: nat)
    requires Sorted(log) && start < end && start <= a <= end && a <= i < |log| && RemembersEnd(f, log, end)
    requires SnapshotExact(f.snapshot, multiset(log[start..end]), multiset(log[a..i]))
    ensures Drops(f, log[i]) <==> IsLost(log, start, end, a, i)
  {
    var l, last := log[i], log[end - 1];
    assert InOrder(log, i, end - 1) && InOrder(log, end - 1, i) && InOrder(log, i, i);
    if l.time == last.time {
      assert l == Line(Some(f.snapshot.value.stamp), l.text);
      assert Left(f.snapshot.value, multiset(log[start..end]), multiset(log[a..i]), l.text);
      DropsAtLastStamp(log, start, end, a, i);
    } else if l.time.value > last.time.value {
      forall k | start <= k < a ensures log[k] != l {
        assert InOrder(log, k, end - 1);
      }
      NoCount(log, start, a, l);
    }
  }

  /** At the last stamp: more copies delivered than read back, exactly when there are more left out than new. */
  lemma DropsAtLastStamp(log: seq<Line>, start: nat, end: nat, a: nat, i: nat)
    requires start < end <= |log| && start <= a <= end && a <= i < |log|
    ensures multiset(log[start..end])[log[i]] > multiset(log[a..i])[log[i]] <==> IsLost(log, start, end, a, i)
  {
    var l := log[i];
    CountOfSlice(log, start, end, l);
    CountOfSlice(log, a, i, l);
    SplitCount(log, start, a, end, l);
    if i < end {
      SplitCount(log, a, i, end, l);
      SomeCount(log, i, end, i);
    } else {
      SplitCount(log, a, end, i, l);
    }
  }

  /** An exact record of a slice holds the slice's last stamp. */
  lemma RecordOfSlice(log: seq<Line>, record: Option<Record>, start: nat, end: nat)
    requires Sorted(log) && start < end <= |log|
    requires RecordExact(record, multiset(log[start..end]))
    ensures record.Some? && log[end - 1].time == Some(record.value.stamp)
  {
    var slice := log[start..end];
    assert InOrder(log, end - 1, end - 1) && slice[end - 1 - start] == log[end - 1];
    assert log[end - 1] in multiset(slice);
    assert record.None? ==> Unstamped(multiset(slice), log[end - 1]);
    assert record.Some? ==> NotAfter(record.value.stamp, multiset(slice), log[end - 1]);
    var x :| Line(Some(record.value.stamp), x) in multiset(slice);
    var k :| 0 <= k < |slice| && slice[k] == Line(Some(record.value.stamp), x);
    assert InOrder(log, start + k, end - 1);
  }

  /** Whether the scan of a window drops its line `i`. */
  ghost predicate DropsAt(f: Filter, window: seq<Line>, i: nat)
    requires i < |window|
  {
    Drops(Scan(f, window[..i]).filter, window[i])
  }

  /** The scan drops exactly the marked lines. */
  ghost predicate DropsMarked(f: Filter, window: seq<Line>, marked: seq<bool>, i: nat)
    requires i < |window| == |marked|
  {
    DropsAt(f, window, i) <==> marked[i]
  }

  /** The unmarked ones of the first `k` lines. */
  function Unmarked(window: seq<Line>, marked: seq<bool>, k: nat): seq<Line>
    requires k <= |window| == |marked|
  {
    if k == 0 then [] else Unmarked(window, marked, k - 1) + if marked[k - 1] then [] else [window[k - 1]]
  }

  lemma {:induction false} ScanKeepsUnmarked(f: Filter, window: seq<Line>, marked: seq<bool>, k: nat)
    requires k <= |window| == |marked| && forall i :: 0 <= i < |window| ==> DropsMarked(f, window, marked, i)
    ensures Scan(f, window[..k]).out == Unmarked(window, marked, k)
  {
    if k > 0 {
      ScanKeepsUnmarked(f, window, marked, k - 1);
      assert DropsMarked(f, window, marked, k - 1);
      assert window[..k] == window[..k - 1] + [window[k - 1]];
      ScanSnoc(f, window[..k - 1], window[k - 1]);
    }
  }

  /** Which lines of log[a..] are lost. */
  ghost function Losses(log: seq<Line>, start: nat, end: nat, a: nat): (marked: seq<bool>)
    requires a <= end <= |log|
    ensures |marked| == |log| - a && forall i :: 0 <= i < |log| - a ==> marked[i] == IsLost(log, start, end, a, a + i)
  {
    seq(|log| - a, i requires 0 <= i < |log| - a => IsLost(log, start, end, a, a + i))
  }

  /** What the filter remembers after reading `read`. */
  lemma SnapshotAfter(record: Option<Record>, log: seq<Line>, start: nat, end: nat, read: seq<Line>)
    requires Sorted(log) && start < end <= |log| && RecordExact(record, multiset(log[start..end]))
    ensures
      var f := Scan(Opened(record), read).filter;
      RemembersEnd(f, log, end) && SnapshotExact(f.snapshot, multiset(log[start..end]), multiset(read))
  {
    RecordOfSlice(log, record, start, end);
    ScanSnapshotExact(record, multiset(log[start..end]), read);
    SnapshotStamp(Opened(record), read);
  }

  lemma ReattachDrops(record: Option<Record>, log: seq<Line>, start: nat, end: nat, a: nat, i: nat)
    requires Sorted(log) && start < end <= |log| && RecordExact(record, multiset(log[start..end]))
    requires start <= a <= end && a + i < |log|
    ensures DropsAt(Opened(record), log[a..], i) <==> IsLost(log, start, end, a, a + i)
  {
    var read := log[a..a + i];
    SnapshotAfter(record, log, start, end, read);
    DropsExactly(Scan(Opened(record), read).filter, log, start, end, a, a + i);
    assert log[a..][..i] == read;
  }

  /** A re-attach from `a` to `b` delivers exactly the lines that are not lost. */
  lemma ReattachDelivers(record: Option<Record>, log: seq<Line>, start: nat, end: nat, a: nat, b: nat)
    requires Sorted(log) && start < end <= |log| && RecordExact(record, multiset(log[start..end]))
    requires start <= a <= end && a <= b <= |log|
    ensures Scan(Opened(record), log[a..b]).out == Unmarked(log[a..], Losses(log, start, end, a), b - a)
  {
    var f, window, marked := Opened(record), log[a..], Losses(log, start, end, a);
    forall i | 0 <= i < |window| ensures DropsMarked(f, window, marked, i) {
      ReattachDrops(record, log, start, end, a, i);
    }
    ScanKeepsUnmarked(f, window, marked, b - a);
    assert window[..b - a] == log[a..b];
  }

  /** With exactly the lines below `cut` marked, the rest of the window is left. */
  lemma {:induction false} UnmarkedTail(window: seq<Line>, marked: seq<bool>, cut: nat, k: nat)
    requires k <= |window| == |marked| && MarkedBelow(marked, cut, k)
    ensures Unmarked(window, marked, k) == From(window, cut, k)
  {
    if k > 0 {
      UnmarkedTail(window, marked, cut, k - 1);
    }
  }

  ghost predicate AllMarked(marked: seq<bool>, cut: nat) {
    cut <= |marked| && forall i :: 0 <= i < cut ==> marked[i]
  }

  /** With another one marked, fewer are. */
  lemma {:induction false} UnmarkedFewer(window: seq<Line>, marked: seq<bool>, cut: nat, j: nat, k: nat)
    requires k <= |window| == |marked| && cut <= j < |window| && marked[j] && AllMarked(marked, cut)
    ensures |Unmarked(window, marked, k)| + (if k > j then 1 else 0) <= if k > cut then k - cut else 0
  {
    if k > 0 {
      UnmarkedFewer(window, marked, cut, j, k - 1);
    }
  }

  lemma FewerThanTail(window: seq<Line>, marked: seq<bool>, cut: nat, j: nat, k: nat)
    requires k <= |window| == |marked| && cut <= j < k && marked[j] && AllMarked(marked, cut)
    ensures |Unmarked(window, marked, k)| < k - cut
  {
    UnmarkedFewer(window, marked, cut, j, k);
  }

  ghost predicate Differ(log: seq<Line>, i: int, k: int) {
    0 <= i < |log| && 0 <= k < |log| ==> log[i] != log[k]
  }

  /** No line past the slice, up to `b`, repeats a delivered line that a tail from `a` on leaves out. */
  ghost predicate NothingRepeats(log: seq<Line>, start: nat, end: nat, a: nat, b: nat) {
    forall i, k :: end <= i < b && start <= k < a ==> Differ(log, i, k)
  }

  /** A tail log[a..b] carries on from the delivered slice log[start..end]: it leaves no gap and nothing repeats. */
  ghost predicate Continues(log: seq<Line>, start: nat, end: nat, a: nat, b: nat) {
    a <= end && NothingRepeats(log, start, end, a, b)
  }

  lemma LostIffDelivered(log: seq<Line>, start: nat, end: nat, a: nat, b: nat, i: nat)
    requires i < b <= |log| && start <= a <= end <= |log| && NothingRepeats(log, start, end, a, b)
    ensures IsLost(log, start, end, a, i) <==> i < end
  {
    if end <= i {
      forall k | start <= k < a ensures log[k] != log[i] {
        assert Differ(log, i, k);
      }
      NoCount(log, start, a, log[i]);
    }
  }

  lemma {:induction false} ScanFits(f: Filter, window: seq<Line>)
    ensures |Scan(f, window).out| <= |window|
  {
    if window != [] {
      ScanFits(f, window[..|window| - 1]);
    }
  }

  /** The first line from `i` on that equals log[k]. */
  lemma {:induction false} FirstLike(log: seq<Line>, i: nat, k: nat) returns (j: nat)
    requires i <= k < |log|
    ensures i <= j <= k && log[j] == log[k] && CountIn(log, i, j, log[k]) == 0
    decreases k - i
  {
    if log[i] == log[k] {
      j := i;
    } else {
      j := FirstLike(log, i + 1, k);
      SplitCount(log, i, i + 1, j, log[k]);
      NoCount(log, i, i + 1, log[k]);
    }
  }

  lemma {:induction false} FromOfTail(log: seq<Line>, a: nat, end: nat, b: nat)
    requires a <= b <= |log| && a <= end
    ensures From(log[a..], end - a, b - a) == From(log, end, b)
    decreases b
  {
    if b > end {
      FromOfTail(log, a, end, b - 1);
    }
  }

  /** Exactly the first `cut` of the first `k` lines are marked. */
  ghost predicate MarkedBelow(marked: seq<bool>, cut: nat, k: nat) {
    k <= |marked| && forall i :: 0 <= i < k ==> (marked[i] <==> i < cut)
  }

  lemma LossesAreDelivered(log: seq<Line>, start: nat, end: nat, a: nat, b: nat)
    requires start <= a <= end <= |log| && a <= b <= |log| && NothingRepeats(log, start, end, a, b)
    ensures MarkedBelow(Losses(log, start, end, a), end - a, b - a)
  {
    var marked, cut := Losses(log, start, end, a), end - a;
    forall i | 0 <= i < b - a ensures marked[i] <==> i < cut {
      LostIffDelivered(log, start, end, a, b, a + i);
    }
  }

  /** If nothing repeats, exactly the lines past the slice are left ... */
  lemma NothingNewIsLost(log: seq<Line>, start: nat, end: nat, a: nat, b: nat)
    requires start <= a <= end <= |log| && a <= b <= |log| && NothingRepeats(log, start, end, a, b)
    ensures Unmarked(log[a..], Losses(log, start, end, a), b - a) == From(log, end, b)
  {
    LossesAreDelivered(log, start, end, a, b);
    UnmarkedTail(log[a..], Losses(log, start, end, a), end - a, b - a);
    FromOfTail(log, a, end, b);
  }

  lemma FirstRepeatIsLost(log: seq<Line>, start: nat, end: nat, a: nat, i: nat, k: nat) returns (j: nat)
    requires start <= k < a <= end <= i < |log| && log[i] == log[k]
    ensures end <= j <= i && Losses(log, start, end, a)[j - a] && AllMarked(Losses(log, start, end, a), end - a)
  {
    j := FirstLike(log, end, i);
    SomeCount(log, start, a, k);
    assert IsLost(log, start, end, a, j);
  }

  /** ... and if a new line repeats one that is left out, fewer. */
  lemma SomethingNewIsLost(log: seq<Line>, start: nat, end: nat, a: nat, b: nat, i: nat, k: nat)
    requires start <= k < a <= end <= i < b <= |log| && log[i] == log[k]
    ensures |Unmarked(log[a..], Losses(log, start, end, a), b - a)| < b - end
  {
    var j := FirstRepeatIsLost(log, start, end, a, i, k);
    FewerThanTail(log[a..], Losses(log, start, end, a), end - a, j - a, b - a);
  }

  /** A re-attach delivers exactly what follows the delivered slice, nothing lost and nothing twice, if and only if
      its tail leaves no gap and no new line repeats a delivered line that the tail leaves out. */
  lemma ScanContinuesIff(log: seq<Line>, record: Option<Record>, start: nat, end: nat, a: nat, b: nat)
    requires Sorted(log) && start < end <= |log| && RecordExact(record, multiset(log[start..end]))
    requires start <= a <= b <= |log|
    ensures Scan(Opened(record), log[a..b]).out == From(log, end, b) <==> Continues(log, start, end, a, b)
  {
    FromLength(log, end, b);
    if a > end {
      ScanFits(Opened(record), log[a..b]);
    } else {
      ReattachDelivers(record, log, start, end, a, b);
      if NothingRepeats(log, start, end, a, b) {
        NothingNewIsLost(log, start, end, a, b);
      } else {
        var i, k :| end <= i < b && start <= k < a && !Differ(log, i, k);
        SomethingNewIsLost(log, start, end, a, b, i, k);
      }
    }
  }

  /** The first line of log[start..end] that carries the stamp of log[end - 1]. */
  function FirstAtLastStamp(log: seq<Line>, start: nat, end: nat): (p: nat)
    requires start < end <= |log|
    ensures start <= p < end
    ensures forall i :: p <= i < end ==> log[i].time == log[end - 1].time
    ensures p == start || log[p - 1].time != log[end - 1].time
    decreases end
  {
    if start < end - 1 && log[end - 2].time == log[end - 1].time
    then FirstAtLastStamp(log, start, end - 1)
    else end - 1
  }

  /** A tail that reaches back to the first delivered line with the last stamp always carries on. */
  lemma LongTailContinues(log: seq<Line>, start: nat, end: nat, a: nat, b: nat)
    requires Sorted(log) && start < end <= |log| && a <= FirstAtLastStamp(log, start, end) && b <= |log|
    ensures Continues(log, start, end, a, b)
  {
    forall i, k | end <= i < b && start <= k < a ensures Differ(log, i, k) {
      var p := FirstAtLastStamp(log, start, end);
      assert InOrder(log, k, p - 1) && InOrder(log, p - 1, end - 1) && InOrder(log, end - 1, i);
    }
  }

  // ---- a series of attaches ----

  /** The part of the log that a series of windows [from, to) spans, Nothing before any line. */
  datatype Slice = Nothing | Slice(start: nat, end: nat)

  function Grow(slice: Slice, from: nat, to: nat): Slice {
    if slice.Nothing? then (if from < to then Slice(from, to) else Nothing)
    else Slice(slice.start, if to > slice.end then to else slice.end)
  }

  function Covered(windows: seq<(nat, nat)>): Slice {
    if windows == [] then Nothing
    else
      var w := windows[|windows| - 1];
      Grow(Covered(windows[..|windows| - 1]), w.0, w.1)
  }

  /** Windows into the log of which none begins before the first that held a line. */
  ghost predicate Reattaches(log: seq<Line>, windows: seq<(nat, nat)>)
    ensures Reattaches(log, windows) && Covered(windows).Slice? ==>
            Covered(windows).start < Covered(windows).end <= |log|
  {
    windows == [] ||
    (var init, w := windows[..|windows| - 1], windows[|windows| - 1];
     && Reattaches(log, init) && w.0 <= w.1 <= |log|
     && (Covered(init).Slice? ==> Covered(init).start <= w.0))
  }

  /** Each window carries on from the part spanned before it. */
  ghost predicate Seamless(log: seq<Line>, windows: seq<(nat, nat)>) {
    windows == [] ||
    (var init, w := windows[..|windows| - 1], windows[|windows| - 1];
     && Seamless(log, init)
     && (Covered(init).Slice? ==> Continues(log, Covered(init).start, Covered(init).end, w.0, w.1)))
  }

  /** The lines of each window, connection by connection. */
  function Windows(log: seq<Line>, windows: seq<(nat, nat)>): seq<seq<Line>>
    requires Reattaches(log, windows)
  {
    if windows == [] then []
    else
      var w := windows[|windows| - 1];
      Windows(log, windows[..|windows| - 1]) + [log[w.0..w.1]]
  }

  function SliceOf(log: seq<Line>, c: Slice): seq<Line>
    requires c.Slice? ==> c.start <= c.end <= |log|
  {
    if c.Nothing? then [] else log[c.start..c.end]
  }

  lemma SliceGrows(log: seq<Line>, c: Slice, from: nat, to: nat)
    requires c.Slice? && c.start < c.end <= |log| && to <= |log|
    ensures SliceOf(log, Grow(c, from, to)) == SliceOf(log, c) + From(log, c.end, to)
  {
    if to > c.end {
      FromIsSlice(log, c.end, to);
      SliceJoins(log, c.start, c.end, to);
    } else {
      assert log[c.start..c.end] + [] == log[c.start..c.end];
    }
  }

  lemma {:induction false} FreshScan(window: seq<Line>)
    ensures Scan(Opened(None), window).out == window
    ensures Scan(Opened(None), window).filter.snapshot == None
  {
    if window != [] {
      FreshScan(window[..|window| - 1]);
      assert window == window[..|window| - 1] + [window[|window| - 1]];
    }
  }

  lemma NothingRecorded(record: Option<Record>)
    requires RecordExact(record, multiset([]))
    ensures record.None?
  {
  }

  /** One more window over a delivered slice extends it exactly when the window carries on. */
  lemma WindowGrowsSliceIff(log: seq<Line>, record: Option<Record>, c: Slice, from: nat, to: nat)
    requires Sorted(log) && from <= to <= |log|
    requires c.Slice? ==> c.start < c.end <= |log| && c.start <= from
    requires RecordExact(record, multiset(SliceOf(log, c)))
    ensures SliceOf(log, c) + Scan(Opened(record), log[from..to]).out == SliceOf(log, Grow(c, from, to))
       <==> (c.Slice? ==> Continues(log, c.start, c.end, from, to))
  {
    var out := Scan(Opened(record), log[from..to]).out;
    if c.Nothing? {
      NothingRecorded(record);
      FreshScan(log[from..to]);
    } else {
      ScanContinuesIff(log, record, c.start, c.end, from, to);
      SliceGrows(log, c, from, to);
      SameEnd(SliceOf(log, c), out, From(log, c.end, to));
    }
  }

  lemma SameEnd<T>(a: seq<T>, b: seq<T>, c: seq<T>)
    ensures a + b == a + c <==> b == c
  {
    assert (a + b)[|a|..] == b && (a + c)[|a|..] == c;
  }

  ghost predicate DeliversSlice(log: seq<Line>, windows: seq<(nat, nat)>)
    requires Reattaches(log, windows)
  {
    Follow(Windows(log, windows)).out == SliceOf(log, Covered(windows))
  }

  /** After each of the attaches, what has been delivered is the slice spanned so far. */
  ghost predicate AlwaysDeliversSlice(log: seq<Line>, windows: seq<(nat, nat)>)
    requires Reattaches(log, windows)
  {
    windows == [] || (AlwaysDeliversSlice(log, windows[..|windows| - 1]) && DeliversSlice(log, windows))
  }

  lemma FollowWindow(log: seq<Line>, windows: seq<(nat, nat)>)
    requires Reattaches(log, windows) && windows != []
    ensures
      var init, w := windows[..|windows| - 1], windows[|windows| - 1];
      var p := Follow(Windows(log, init));
      Follow(Windows(log, windows)).out == p.out + Scan(Opened(p.record), log[w.0..w.1]).out
  {
    var ws := Windows(log, windows);
    assert ws[..|ws| - 1] == Windows(log, windows[..|windows| - 1]);
  }

  /** Exactly once: all the way through, what has been delivered is in order one contiguous slice of the log, each
      position once, if and only if every re-attach carries on from what the ones before it spanned. */
  lemma {:induction false} FollowIsOneSliceIff(log: seq<Line>, windows: seq<(nat, nat)>)
    requires Sorted(log) && Reattaches(log, windows)
    ensures AlwaysDeliversSlice(log, windows) <==> Seamless(log, windows)
    ensures Seamless(log, windows) ==> DeliversSlice(log, windows)
  {
    if windows != [] {
      var init, w := windows[..|windows| - 1], windows[|windows| - 1];
      FollowIsOneSliceIff(log, init);
      if Seamless(log, init) {
        FollowWindow(log, windows);
        FollowRecordExact(Windows(log, init));
        WindowGrowsSliceIff(log, Follow(Windows(log, init)).record, Covered(init), w.0, w.1);
      }
    }
  }

  /** Every re-attach reaches back to the first delivered line with the last stamp. */
  ghost predicate LongTails(log: seq<Line>, windows: seq<(nat, nat)>)
    requires Reattaches(log, windows)
  {
    windows == [] ||
    (var c, w := Covered(windows[..|windows| - 1]), windows[|windows| - 1];
     && LongTails(log, windows[..|windows| - 1])
     && (c.Slice? ==> w.0 <= FirstAtLastStamp(log, c.start, c.end)))
  }

  lemma {:induction false} LongTailsAreSeamless(log: seq<Line>, windows: seq<(nat, nat)>)
    requires Sorted(log) && Reattaches(log, windows) && LongTails(log, windows)
    ensures Seamless(log, windows)
  {
    if windows != [] {
      var c, w := Covered(windows[..|windows| - 1]), windows[|windows| - 1];
      LongTailsAreSeamless(log, windows[..|windows| - 1]);
      if c.Slice? {
        LongTailContinues(log, c.start, c.end, w.0, w.1);
      }
    }
  }

  /** A re-attach that leaves out a delivered line loses a new line that repeats it. */
  lemma ShortTailLosesALine(line: Line)
    requires line.time.Some?
    ensures !Continues([line, line], 0, 1, 1, 2)
    ensures Follow([[line], [line]]).out == [line]
  {
    var record := Some(Record(line.time.value, map[line.text := 1]));
    assert !Differ([line, line], 1, 0);
    OneLineScan(None, line);
    OneLineScan(record, line);
    var one, two := [[line]], [[line], [line]];
    assert two[..1] == one && one[..0] == [];
    assert Follow(one) == Followed(record, [line]);
  }

  lemma OneLineScan(record: Option<Record>, line: Line)
    ensures
      var f := Opened(record);
      Scan(f, [line])
        == if Drops(f, line) then Scanned(Step(f, line), [], [line]) else Scanned(Step(f, line), [line], [])
  {
  }

  /** A short tail need not lose anything: only what is left out can be mistaken for something new. */
  lemma ShortTailCanContinue(t: int)
    ensures
      var log := [Line(Some(t), "a"), Line(Some(t), "b"), Line(Some(t), "c")];
      1 > FirstAtLastStamp(log, 0, 2) && Continues(log, 0, 2, 1, 3)
  {
    var log := [Line(Some(t), "a"), Line(Some(t), "b"), Line(Some(t), "c")];
    assert FirstAtLastStamp(log, 0, 2) == 0;
    forall i, k | 2 <= i < 3 && 0 <= k < 1 ensures Differ(log, i, k) {
    }
  }
}
