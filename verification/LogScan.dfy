/**
 internal/api/logstream.go: the scan loop that filters one attach of a container log, and what it
 delivers over a series of attaches.
 */
module LogScan {
  import opened Prelude
  import opened ReplayFilter

  datatype LogLine = LogLine(pod: string, container: string, time: string, line: string)

  /** Reads a kubelet stamp; stands for time.Parse with the RFC3339Nano layout. */
  type StampParser = string -> Option<int>

  /** The position of the first space, or the length of the line. */
  function SpaceAt(line: string): (i: nat)
    ensures i <= |line|
  {
    if line == "" || line[0] == ' ' then 0 else 1 + SpaceAt(line[1..])
  }

  datatype Split = Split(token: string, msg: string, stamp: Option<int>)

  function SplitLogTimestamp(parse: StampParser, line: string): Split {
    var i := SpaceAt(line);
    if i == |line| then Split("", line, None)
    else
      var stamp := parse(line[..i]);
      if stamp.None? then Split("", line, None) else Split(line[..i], line[i + 1..], stamp)
  }

  lemma {:induction false} FirstSpace(line: string)
    ensures ' ' !in line[..SpaceAt(line)]
    ensures SpaceAt(line) < |line| ==> line[SpaceAt(line)] == ' '
  {
    if line != "" && line[0] != ' ' {
      FirstSpace(line[1..]);
      assert line[..SpaceAt(line)] == [line[0]] + line[1..][..SpaceAt(line[1..])];
    }
  }

  /** No line is mangled: the parts around the first space are the line, or the message is the whole of it. */
  lemma SplitLosesNothing(parse: StampParser, line: string)
    ensures
      var s := SplitLogTimestamp(parse, line);
      if s.stamp.Some? then line == s.token + " " + s.msg && ' ' !in s.token && s.stamp == parse(s.token)
      else s.token == "" && s.msg == line
  {
    FirstSpace(line);
    var i := SpaceAt(line);
    assert i < |line| ==> line == line[..i] + " " + line[i + 1..];
  }

  /** And a line is split exactly when what stands before its first space is a stamp. */
  lemma SplitAtStamp(parse: StampParser, token: string, msg: string)
    requires ' ' !in token
    ensures SplitLogTimestamp(parse, token + " " + msg)
         == if parse(token).Some? then Split(token, msg, parse(token)) else Split("", token + " " + msg, None)
  {
    var line := token + " " + msg;
    SpaceBehind(token, msg);
    assert line[..|token|] == token && line[|token| + 1..] == msg;
  }

  lemma {:induction false} SpaceBehind(token: string, msg: string)
    requires ' ' !in token
    ensures SpaceAt(token + " " + msg) == |token|
  {
    if |token| > 0 {
      SpaceBehind(token[1..], msg);
      assert (token + " " + msg)[1..] == token[1..] + " " + msg;
    } else {
      assert (token + " " + msg)[0] == ' ';
    }
  }

  lemma NoSpaceNoStamp(parse: StampParser, line: string)
    requires ' ' !in line
    ensures SplitLogTimestamp(parse, line) == Split("", line, None)
  {
    FirstSpace(line);
  }

  /** The line as the replay rule sees it. */
  function Parsed(parse: StampParser, line: string): Line {
    var s := SplitLogTimestamp(parse, line);
    Line(s.stamp, s.msg)
  }

  function ParsedAll(parse: StampParser, window: seq<string>): (r: seq<Line>)
    ensures |r| == |window|
  {
    seq(|window|, i requires 0 <= i < |window| => Parsed(parse, window[i]))
  }

  /** The filter after the first k lines of a window. */
  function FilterAt(parse: StampParser, f: Filter, window: seq<string>, k: nat): Filter
    requires k <= |window|
  {
    if k == 0 then f else Step(FilterAt(parse, f, window, k - 1), Parsed(parse, window[k - 1]))
  }

  /** The lines among the first k that pass the filter, in order. */
  function PassedAt(parse: StampParser, f: Filter, window: seq<string>, k: nat): seq<string>
    requires k <= |window|
  {
    if k == 0 then []
    else if Drops(FilterAt(parse, f, window, k - 1), Parsed(parse, window[k - 1]))
    then PassedAt(parse, f, window, k - 1)
    else PassedAt(parse, f, window, k - 1) + [window[k - 1]]
  }

  lemma ParsedAllSnoc(parse: StampParser, lines: seq<string>, line: string)
    ensures ParsedAll(parse, lines + [line]) == ParsedAll(parse, lines) + [Parsed(parse, line)]
  {
  }

  lemma {:induction false} FilterAtIsScan(parse: StampParser, f: Filter, window: seq<string>, k: nat)
    requires k <= |window|
    ensures Scan(f, ParsedAll(parse, window)[..k]).filter == FilterAt(parse, f, window, k)
  {
    if k > 0 {
      FilterAtIsScan(parse, f, window, k - 1);
      assert ParsedAll(parse, window)[..k][..k - 1] == ParsedAll(parse, window)[..k - 1];
    }
  }

  /** Read as stamped lines, what passes is what the replay rule delivers. */
  lemma {:induction false} PassedAtIsScan(parse: StampParser, f: Filter, window: seq<string>, k: nat)
    requires k <= |window|
    ensures Scan(f, ParsedAll(parse, window)[..k]).out == ParsedAll(parse, PassedAt(parse, f, window, k))
  {
    if k > 0 {
      PassedAtIsScan(parse, f, window, k - 1);
      FilterAtIsScan(parse, f, window, k - 1);
      assert ParsedAll(parse, window)[..k][..k - 1] == ParsedAll(parse, window)[..k - 1];
      ParsedAllSnoc(parse, PassedAt(parse, f, window, k - 1), window[k - 1]);
    }
  }

  /** How a delivered line is sent to the client. */
  function Tagged(parse: StampParser, pod: string, container: string, timestamps: bool, resumed: bool,
                  line: string): LogLine
  {
    if timestamps || resumed then
      var s := SplitLogTimestamp(parse, line);
      LogLine(pod, container, if timestamps then s.token else "", s.msg)
    else LogLine(pod, container, "", line)
  }

  /** A line is sent under its pod and container. With timestamps asked for, stamp and text give it back; without them
      the text is the line, or what follows the stamp when the stream keeps a record. */
  lemma TaggedSpellsLine(parse: StampParser, pod: string, container: string, timestamps: bool, resumed: bool,
                         line: string)
    ensures
      var t, stamped := Tagged(parse, pod, container, timestamps, resumed, line), Parsed(parse, line).time.Some?;
      && t.pod == pod && t.container == container
      && (timestamps && stamped ==> line == t.time + " " + t.line && parse(t.time).Some?)
      && (!timestamps || !stamped ==> t.time == "")
      && (!timestamps && resumed && stamped ==>
            exists token :: line == token + " " + t.line && ' ' !in token && parse(token).Some?)
      && (!stamped || (!timestamps && !resumed) ==> t.line == line)
  {
    SplitLosesNothing(parse, line);
    var s := SplitLogTimestamp(parse, line);
    assert s.stamp.Some? ==> line == s.token + " " + s.msg && ' ' !in s.token && parse(s.token).Some?;
  }

  function TaggedAll(parse: StampParser, pod: string, container: string, timestamps: bool, resumed: bool,
                     lines: seq<string>)
    : (r: seq<LogLine>)
    ensures |r| == |lines|
  {
    seq(|lines|, i requires 0 <= i < |lines| => Tagged(parse, pod, container, timestamps, resumed, lines[i]))
  }

  lemma TaggedAllSnoc(parse: StampParser, pod: string, container: string, timestamps: bool, resumed: bool,
                      lines: seq<string>, line: string)
    ensures TaggedAll(parse, pod, container, timestamps, resumed, lines + [line])
            == TaggedAll(parse, pod, container, timestamps, resumed, lines)
               + [Tagged(parse, pod, container, timestamps, resumed, line)]
  {
  }

  /** What one container's follow stream delivered; `lines` is None while Go's map is nil. */
  class LogResume {
    var stamp: int
    var lines: Option<map<string, nat>>

    constructor ()
      ensures Recorded() == None
    {
      stamp, lines := 0, None;
    }

    function Recorded(): Option<Record>
      reads this
    {
      if lines.None? then None else Some(Record(stamp, lines.value))
    }

    /** The bookkeeping after a successful send of a stamped line. */
    method Delivered(at: int, text: string)
      modifies this
      ensures Recorded() == Note(old(Recorded()), Line(Some(at), text))
    {
      if lines.None? || at > stamp {
        stamp := at;
        lines := Some(map[]);
      }
      if at == stamp {
        lines := Some(lines.value[text := CountOf(lines.value, text) + 1]);
      }
    }
  }

  /** A tokenless split leaves no stamp, so `token != ""` tests for one. */
  lemma TokenIffStamp(parse: StampParser, line: string)
    requires parse("").None?
    ensures SplitLogTimestamp(parse, line).token != "" <==> Parsed(parse, line).time.Some?
  {
  }

  /**
   Scans the lines of one attach. `ctxWins(i)` says that the select on line i takes ctx.Done, and
   `endErr` that the scanner or the context reports an error once the lines are over.

   `read` lines were handled. What they delivered and what the record then holds is the replay rule's
   answer for them; the rest of the stream was not touched.
   */
  method ScanLogStream(parse: StampParser, window: seq<string>, pod: string, container: string, timestamps: bool,
                       resume: LogResume?, ctxWins: nat -> bool, endErr: bool)
    returns (out: seq<LogLine>, read: nat, cleanEOF: bool)
    requires parse("").None?
    modifies resume
    ensures read <= |window|
    ensures resume == null ==> out == TaggedAll(parse, pod, container, timestamps, false, window[..read])
    ensures resume != null ==>
              var f := Opened(old(resume.Recorded()));
              && resume.Recorded() == FilterAt(parse, f, window, read).record
              && out == TaggedAll(parse, pod, container, timestamps, true, PassedAt(parse, f, window, read))
    ensures read < |window| ==>
              && ctxWins(read)
              && (resume != null ==>
                    !Drops(FilterAt(parse, Opened(old(resume.Recorded())), window, read), Parsed(parse, window[read])))
    ensures cleanEOF <==> read == |window| && !endErr
  {
    ghost var f0 := if resume == null then Opened(None) else Opened(resume.Recorded());
    ghost var resumed := resume != null;
    var previous, remaining := 0, None;
    if resume != null {
      previous, remaining := resume.stamp, resume.lines;
    }
    out, read := [], 0;
    while read < |window|
      invariant read <= |window|
      invariant !resumed ==>
                remaining == None && out == TaggedAll(parse, pod, container, timestamps, false, window[..read])
      invariant resumed ==>
                  FilterAt(parse, f0, window, read)
                  == Filter(if remaining.None? then None else Some(Record(previous, remaining.value)),
                    resume.Recorded())
      invariant resumed ==> out == TaggedAll(parse, pod, container, timestamps, true, PassedAt(parse, f0, window, read))
    {
      var raw := window[read];
      var ll, stamp := LogLine(pod, container, "", raw), None;
      if timestamps || resume != null {
        var s := SplitLogTimestamp(parse, raw);
        ll, stamp := LogLine(pod, container, s.token, s.msg), s.stamp;
      }
      TokenIffStamp(parse, raw);
      var stamped := ll.time != "";
      ghost var before := if resumed then PassedAt(parse, f0, window, read) else window[..read];
      TaggedAllSnoc(parse, pod, container, timestamps, resumed, before, raw);
      assert window[..read + 1] == window[..read] + [raw];
      read := read + 1;
      if remaining.Some? && stamped {
        if stamp.value < previous {
          continue;
        }
        if stamp.value == previous && CountOf(remaining.value, ll.line) > 0 {
          remaining := Some(remaining.value[ll.line := remaining.value[ll.line] - 1]);
          continue;
        }
      }
      if !timestamps {
        ll := ll.(time := "");
      }
      if ctxWins(read - 1) {
        return out, read - 1, false;
      }
      out := out + [ll];
      if resume != null && stamped {
        resume.Delivered(stamp.value, ll.line);
      }
    }
    assert window[..read] == window;
    cleanEOF := !endErr;
  }
}
