/**
 internal/api/logstream.go: the supervisor that keeps one streamer per (pod UID, container), re-attaches
 the ones that end, and remembers what each delivered.

 The lock-protected sections are methods of the class `Supervisor`, proved against functions on its
 abstract state; `LogSupervisorRuns` proves what holds over every interleaving of those sections.
 */
module LogSupervisor {
  import opened Prelude
  import opened LogScan

  datatype Key = Key(uid: string, container: string)

  function LogStreamKey(k: Key): string {
    k.uid + "/" + k.container
  }

  /** A UID has no slash, so the string key gives the UID back (strings.Cut) and determines the pair. */
  lemma KeyIsFaithful(k: Key, other: Key)
    requires '/' !in k.uid && '/' !in other.uid
    ensures Before(LogStreamKey(k), '/') == k.uid
    ensures LogStreamKey(k) == LogStreamKey(other) ==> k == other
  {
    BeforeSeparator(k.uid, '/', k.container);
    if LogStreamKey(k) == LogStreamKey(other) {
      SplitAtSeparator(k.uid, other.uid, '/', k.container, other.container);
    }
  }

  datatype DrainMark = DrainMark(terminal: bool, gen: int)

  /** One container of a resolved pod, with what its status said when it was looked at: whether the pod
      had finished, whether the container was waiting or terminated, and its restart count. */
  datatype Target = Target(key: Key, terminalAtAttach: bool, drainAtAttach: bool, gen: int)

  /** The supervisor's maps; `R` is what stands for a reference to a resume record. */
  datatype Sup<R> = Sup(streaming: set<Key>, drained: map<Key, DrainMark>, resumes: map<Key, R>, wasGone: bool)

  function PruneStep<R>(s: Sup<R>, present: set<string>): Sup<R> {
    s.(resumes := map k | k in s.resumes && (k.uid in present || k in s.streaming) :: s.resumes[k])
  }

  predicate SignalsGone<R>(s: Sup<R>, rootExists: bool) {
    !rootExists && !s.wasGone
  }

  function RootStep<R>(s: Sup<R>, rootExists: bool): Sup<R> {
    s.(wasGone := !rootExists)
  }

  predicate Terminal<R>(s: Sup<R>, k: Key) {
    k in s.drained && s.drained[k].terminal
  }

  predicate Skips<R>(s: Sup<R>, t: Target) {
    || t.key in s.streaming
    || Terminal(s, t.key)
    || (t.key in s.drained && t.drainAtAttach && t.gen == s.drained[t.key].gen)
  }

  /** Claiming a target for a new streamer; a key without a record gets `blank`. */
  function ClaimStep<R>(s: Sup<R>, t: Target, blank: R): Sup<R>
    requires !Skips(s, t)
  {
    s.(streaming := s.streaming + {t.key},
       resumes := if t.key in s.resumes then s.resumes else s.resumes[t.key := blank])
  }

  function FinishStep<R>(s: Sup<R>, t: Target, didOpen: bool, cleanEOF: bool): Sup<R> {
    var done :=
      if !(didOpen && cleanEOF) then s
      else if t.terminalAtAttach
      then s.(drained := s.drained[t.key := DrainMark(true, 0)], resumes := s.resumes - {t.key})
      else if t.drainAtAttach then s.(drained := s.drained[t.key := DrainMark(false, t.gen)])
      else s;
    done.(streaming := done.streaming - {t.key})
  }

  class Supervisor {
    var streaming: set<Key>
    var drained: map<Key, DrainMark>
    var resumes: map<Key, LogResume>
    var wasGone: bool

    ghost function State(): Sup<LogResume>
      reads this
    {
      Sup(streaming, drained, resumes, wasGone)
    }

    constructor ()
      ensures State() == Sup({}, map[], map[], false)
    {
      streaming, drained, resumes, wasGone := {}, map[], map[], false;
    }

    method PruneLogResumes(presentUIDs: set<string>)
      modifies this`resumes
      ensures State() == PruneStep(old(State()), presentUIDs)
    {
      var todo := resumes.Keys;
      while todo != {}
        invariant todo <= resumes.Keys <= old(resumes).Keys
        invariant forall k :: k in resumes ==> resumes[k] == old(resumes)[k]
        invariant forall k :: k in old(resumes) ==>
                    (k in resumes <==> k in todo || k.uid in presentUIDs || k in streaming)
        decreases |todo|
      {
        var key :| key in todo;
        todo := todo - {key};
        if key.uid !in presentUIDs && key !in streaming {
          resumes := resumes - {key};
        }
      }
    }

    /** The part of a resolve that follows the pruning; `signal` is the send on `gone`. */
    method NoteRoot(rootExists: bool) returns (signal: bool)
      modifies this`wasGone
      ensures State() == RootStep(old(State()), rootExists)
      ensures signal <==> SignalsGone(old(State()), rootExists)
    {
      signal := false;
      if !rootExists {
        if !wasGone {
          wasGone := true;
          signal := true;
        }
        return;
      }
      wasGone := false;
    }

    /** Starts following a target unless it is being followed or has nothing new; null when it is skipped. */
    method Claim(t: Target) returns (resume: LogResume?)
      modifies this`streaming, this`resumes
      ensures resume == null <==> Skips(old(State()), t)
      ensures resume == null ==> State() == old(State())
      ensures resume != null ==>
                && State() == ClaimStep(old(State()), t, resume)
                && resumes[t.key] == resume
                && (t.key in old(resumes) || (fresh(resume) && resume.Recorded() == None))
    {
      var wasDrained := t.key in drained;
      var generationStillDrained := wasDrained && t.drainAtAttach && t.gen == drained[t.key].gen;
      if t.key in streaming || (wasDrained && drained[t.key].terminal) || generationStillDrained {
        return null;
      }
      streaming := streaming + {t.key};
      if t.key in resumes {
        resume := resumes[t.key];
      } else {
        resume := new LogResume();
        resumes := resumes[t.key := resume];
      }
    }

    /** What a streamer does when its scan is over. */
    method Finish(t: Target, didOpen: bool, cleanEOF: bool)
      modifies this`streaming, this`drained, this`resumes
      ensures State() == FinishStep(old(State()), t, didOpen, cleanEOF)
    {
      if didOpen && cleanEOF {
        if t.terminalAtAttach {
          drained := drained[t.key := DrainMark(true, 0)];
          resumes := resumes - {t.key};
        } else if t.drainAtAttach {
          drained := drained[t.key := DrainMark(false, t.gen)];
        }
      }
      streaming := streaming - {t.key};
    }
  }
}
