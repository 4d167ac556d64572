/**
 What the browser's replay filter guarantees for each container of each pod, however entries name them: the theorems of
 ClientResumeRuns, with the lines of a container told by the fields of the entries.
 */
module ClientResumeContainers {
  import opened Prelude
  import opened ReplayFilter
  import opened ReplaySlices
  import opened ClientResume
  import opened ClientResumeRuns

  /** An entry of a container; one that names no container belongs to the container "". */
  predicate IsOf(e: Entry, pod: string, container: string) {
    e.pod == pod && (e.container == Some(container) || (e.container == None && container == ""))
  }

  /** Pod names hold no slash. */
  ghost predicate PlainPods(es: seq<Entry>) {
    forall e :: e in es ==> '/' !in e.pod
  }

  ghost predicate PlainRun(events: seq<Event>) {
    forall event :: event in events && event.Receive? ==> '/' !in event.entry.pod
  }

  lemma OfIsFrom(e: Entry, pod: string, container: string)
    requires '/' !in e.pod && '/' !in pod
    ensures IsOf(e, pod, container) <==> SourceOf(e) == pod + "/" + container
  {
    var x := if e.container.Some? then e.container.value else "";
    assert SourceOf(e) == e.pod + ['/'] + x && pod + "/" + container == pod + ['/'] + container;
    if SourceOf(e) == pod + "/" + container {
      SplitAtSeparator(e.pod, pod, '/', x, container);
    }
  }

  // ---- a container's lines among some entries ----

  ghost function LinesOf(es: seq<Entry>, pod: string, container: string): multiset<Line> {
    if es == [] then multiset{}
    else
      var e := es[|es| - 1];
      LinesOf(es[..|es| - 1], pod, container) + (if IsOf(e, pod, container) then multiset{e.line} else multiset{})
  }

  lemma {:induction false} LinesOfAreFrom(es: seq<Entry>, pod: string, container: string)
    requires PlainPods(es) && '/' !in pod
    ensures LinesOf(es, pod, container) == LinesFrom(es, pod + "/" + container)
  {
    if es != [] {
      LinesOfAreFrom(es[..|es| - 1], pod, container);
      OfIsFrom(es[|es| - 1], pod, container);
    }
  }

  /** Its accepted lines, in order. */
  ghost function Shows(accepted: seq<Entry>, pod: string, container: string): seq<Line> {
    if accepted == [] then []
    else
      var e := accepted[|accepted| - 1];
      Shows(accepted[..|accepted| - 1], pod, container) + (if IsOf(e, pod, container) then [e.line] else [])
  }

  lemma {:induction false} ShowsAreShown(accepted: seq<Entry>, pod: string, container: string)
    requires PlainPods(accepted) && '/' !in pod
    ensures Shows(accepted, pod, container) == ShownLines(accepted, pod + "/" + container)
  {
    if accepted != [] {
      ShowsAreShown(accepted[..|accepted| - 1], pod, container);
      OfIsFrom(accepted[|accepted| - 1], pod, container);
    }
  }

  /** Its lines, connection by connection. */
  ghost function Received(events: seq<Event>, pod: string, container: string): (r: seq<seq<Line>>)
    ensures r != []
  {
    if events == [] then [[]]
    else
      var r := Received(events[..|events| - 1], pod, container);
      match events[|events| - 1]
      case Open => r + [[]]
      case Receive(e) => if IsOf(e, pod, container) then AddLine(r, e.line) else r
  }

  lemma {:induction false} ReceivedAreWindows(events: seq<Event>, pod: string, container: string)
    requires PlainRun(events) && '/' !in pod
    ensures Received(events, pod, container) == WindowsOf(events, pod + "/" + container)
  {
    if events != [] {
      var event := events[|events| - 1];
      ReceivedAreWindows(events[..|events| - 1], pod, container);
      assert event in events;
      if event.Receive? {
        OfIsFrom(event.entry, pod, container);
      }
    }
  }

  lemma {:induction false} RunIsPlain(events: seq<Event>)
    requires PlainRun(events)
    ensures PlainPods(Run(events).conn) && PlainPods(Run(events).accepted)
  {
    if events != [] {
      assert events[|events| - 1] in events;
      RunIsPlain(events[..|events| - 1]);
    }
  }

  // ---- the buffer ----

  /** The viewer shows the last 2001 accepted entries. */
  lemma BufferIsLast(accepted: seq<Entry>)
    ensures |Buffer(accepted)| == if |accepted| < 2001 then |accepted| else 2001
    ensures Buffer(accepted) == accepted[|accepted| - |Buffer(accepted)|..]
  {
  }

  /** What the current connection has sent of a container: each position of its log at most once. */
  ghost predicate Sends(events: seq<Event>, log: multiset<Line>, pod: string, container: string) {
    StampedWithin(LinesOf(Run(events).conn, pod, container), log)
  }

  ghost predicate AlwaysSends(events: seq<Event>, log: multiset<Line>, pod: string, container: string) {
    forall i :: 0 <= i <= |events| ==> Sends(events[..i], log, pod, container)
  }

  /** Over any run of reconnects and evictions, what the viewer shows never holds a stamped line of a container more
      often than that container's log does, as long as one connection sends each log position at most once. */
  lemma BufferNeverExceedsLog(events: seq<Event>, log: multiset<Line>, pod: string, container: string)
    requires PlainRun(events) && '/' !in pod && AlwaysSends(events, log, pod, container)
    ensures StampedWithin(LinesOf(Buffer(Run(events).accepted), pod, container), log)
  {
    var source := pod + "/" + container;
    forall i | 0 <= i <= |events| ensures SentWithin(events[..i], log, source) {
      assert Sends(events[..i], log, pod, container);
      RunIsPlain(events[..i]);
      LinesOfAreFrom(Run(events[..i]).conn, pod, container);
    }
    SourceWithinLog(events, log, source);
    RunIsPlain(events);
    LinesOfAreFrom(Buffer(Run(events).accepted), pod, container);
  }

  /** In every run: when an event drops a container's record from the map, none of its accepted lines is left in the
      buffer. */
  lemma EvictedIsOffScreen(events: seq<Event>, event: Event, pod: string, container: string)
    requires pod + "/" + container in Run(events).st.live
    requires pod + "/" + container !in Next(Run(events), event).st.live
    ensures forall e :: e in Buffer(Next(Run(events), event).accepted) ==> !IsOf(e, pod, container)
  {
    DroppedIsOffScreen(events, event, pod + "/" + container);
    forall e | e in Buffer(Next(Run(events), event).accepted) ensures !IsOf(e, pod, container) {
      assert SourceOf(e) != pod + "/" + container;
    }
  }

  // ---- the server's rule ----

  /** The browser accepts from a container whose record it never evicts exactly the lines that the server's rule
      delivers from the same connections. */
  lemma ClientFollowsServerRule(events: seq<Event>, pod: string, container: string)
    requires PlainRun(events) && '/' !in pod && NeverEvicted(events, pod + "/" + container)
    ensures Shows(Run(events).accepted, pod, container) == Follow(Received(events, pod, container)).out
  {
    SourceFollowsServerRule(events, pod + "/" + container);
    RunIsPlain(events);
    ShowsAreShown(Run(events).accepted, pod, container);
    ReceivedAreWindows(events, pod, container);
  }

  /** Hence, while every re-sent tail carries on from what came before, what the browser has shown of such a container
      over all reconnects is one contiguous slice of its log. */
  lemma ReconnectsShowOneSlice(events: seq<Event>, pod: string, container: string, log: seq<Line>,
                               windows: seq<(nat, nat)>)
    requires PlainRun(events) && '/' !in pod && NeverEvicted(events, pod + "/" + container)
    requires Sorted(log) && Reattaches(log, windows) && Seamless(log, windows)
    requires Received(events, pod, container) == Windows(log, windows)
    ensures Shows(Run(events).accepted, pod, container) == SliceOf(log, Covered(windows))
  {
    ClientFollowsServerRule(events, pod, container);
    FollowIsOneSliceIff(log, windows);
  }
}
