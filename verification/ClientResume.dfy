/**
 web/src/logResume.ts: the browser's side of the replay rule, which works across connections and
 remembers a bounded number of sources, least recently accepted first out.
 */
module ClientResume {
  import opened Prelude
  import opened ReplayFilter

  const LOG_BUFFER_CAPACITY: nat := 2001

  datatype Entry = Entry(pod: string, container: Option<string>, line: Line)

  function SourceOf(e: Entry): string {
    e.pod + "/" + (if e.container.Some? then e.container.value else "")
  }

  predicate NoContainer(e: Entry) {
    e.container == None || e.container == Some("")
  }

  /** A pod name has no slash, so entries share a record exactly when they come from the same container of one pod; an
      entry that names no container counts as one of the container "". */
  lemma SourceIsFaithful(a: Entry, b: Entry)
    requires '/' !in a.pod && '/' !in b.pod
    ensures SourceOf(a) == SourceOf(b)
       <==> a.pod == b.pod && (a.container == b.container || (NoContainer(a) && NoContainer(b)))
  {
    var x := if a.container.Some? then a.container.value else "";
    var y := if b.container.Some? then b.container.value else "";
    assert SourceOf(a) == a.pod + ['/'] + x && SourceOf(b) == b.pod + ['/'] + y;
    if SourceOf(a) == SourceOf(b) {
      SplitAtSeparator(a.pod, b.pod, '/', x, y);
    }
  }

  /** A JavaScript Map of records is its entries and the order in which they were inserted. */
  datatype Resume = Resume(live: map<string, Record>, order: seq<string>, delivered: map<string, Record>)

  const Empty := Resume(map[], [], map[])

  function OpenedStep(s: Resume): Resume {
    s.(delivered := s.live)
  }

  function SourceFilter(s: Resume, source: string): Filter {
    Filter(Get(s.delivered, source), Get(s.live, source))
  }

  function Accepts(s: Resume, e: Entry): bool {
    !Drops(SourceFilter(s, SourceOf(e)), e.line)
  }

  function Without(order: seq<string>, source: string): seq<string> {
    if order == [] then []
    else if order[0] == source then Without(order[1..], source)
    else [order[0]] + Without(order[1..], source)
  }

  lemma {:induction false} WithoutDropsOne(order: seq<string>, source: string)
    ensures forall x :: x in Without(order, source) <==> x in order && x != source
    ensures |Without(order, source)| <= |order|
  {
    if order != [] {
      WithoutDropsOne(order[1..], source);
      assert order == [order[0]] + order[1..];
    }
  }

  /** Deletes and re-inserts a key, so that it comes last. */
  function Touch(s: Resume, source: string, r: Record): Resume {
    s.(live := s.live[source := r], order := Without(s.order, source) + [source])
  }

  function Evict(s: Resume): Resume {
    if |s.order| <= LOG_BUFFER_CAPACITY then s
    else s.(live := s.live - {s.order[0]}, order := s.order[1..])
  }

  function AcceptStep(s: Resume, e: Entry): Resume {
    var source := SourceOf(e);
    var f := SourceFilter(s, source);
    var g := Step(f, e.line);
    if Drops(f, e.line) then
      if g.snapshot.Some? then s.(delivered := s.delivered[source := g.snapshot.value]) else s
    else if g.record.None? then s
    else Evict(Touch(s, source, g.record.value))
  }

  class LogResume {
    var live: map<string, Record>
    var order: seq<string>
    var delivered: map<string, Record>

    ghost function State(): Resume
      reads this
    {
      Resume(live, order, delivered)
    }

    constructor ()
      ensures State() == Empty
    {
      live, order, delivered := map[], [], map[];
    }

    method Opened()
      modifies this`delivered
      ensures State() == OpenedStep(old(State()))
    {
      delivered := live;
    }

    method Accept(e: Entry) returns (accepted: bool)
      modifies this
      ensures State() == AcceptStep(old(State()), e)
      ensures accepted <==> Accepts(old(State()), e)
    {
      var source := SourceOf(e);
      if source in delivered && e.line.time.Some? {
        var snapshot, time := delivered[source], e.line.time.value;
        if time < snapshot.stamp {
          return false;
        }
        var remaining := CountOf(snapshot.lines, e.line.text);
        if time == snapshot.stamp && remaining > 0 {
          delivered := delivered[source := snapshot.(lines := snapshot.lines[e.line.text := remaining - 1])];
          return false;
        }
      }
      var resume := Get(live, source);
      if e.line.time.Some? {
        var time := e.line.time.value;
        if resume.None? || time > resume.value.stamp {
          resume := Some(Record(time, map[]));
        }
        if time == resume.value.stamp {
          var r := resume.value;
          resume := Some(r.(lines := r.lines[e.line.text := CountOf(r.lines, e.line.text) + 1]));
        }
      }
      if resume.Some? {
        Reinsert(source, resume.value);
      }
      return true;
    }

    /** Moves a source to the end of the map and drops the first one when the map is too large. */
    method Reinsert(source: string, r: Record)
      modifies this`live, this`order
      ensures State() == Evict(Touch(old(State()), source, r))
    {
      live, order := live - {source}, Without(order, source);
      live, order := live[source := r], order + [source];
      assert live == old(live)[source := r];
      if |order| > LOG_BUFFER_CAPACITY {
        var first := order[0];
        live, order := live - {first}, order[1..];
      }
    }
  }
}
