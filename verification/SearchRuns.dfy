/** web/src/logs.ts, splitByMatch: a line chopped into hits and what lies between them. */
module SearchRuns {
  import opened Prelude
  import opened ManifestTokens
  import opened TextLines

  datatype Run = Run(text: string, hit: bool)

  function RunText(runs: seq<Run>): string {
    if runs == [] then "" else RunText(runs[..|runs| - 1]) + runs[|runs| - 1].text
  }

  function Hits(runs: seq<Run>): nat {
    if runs == [] then 0 else Hits(runs[..|runs| - 1]) + if runs[|runs| - 1].hit then 1 else 0
  }

  lemma RunPush(runs: seq<Run>, r: Run)
    ensures RunText(runs + [r]) == RunText(runs) + r.text
    ensures Hits(runs + [r]) == Hits(runs) + if r.hit then 1 else 0
  {
    assert (runs + [r])[..|runs|] == runs;
  }

  /** The first occurrence from `i` on. */
  function NextAt(hay: string, needle: string, i: nat): (at: Option<nat>)
    ensures at.Some? ==> i <= at.value < |hay|
    decreases |hay| - i
  {
    if i >= |hay| then None else if OccursAt(hay, needle, i) then Some(i) else NextAt(hay, needle, i + 1)
  }

  lemma {:induction false} NoneBeforeNext(hay: string, needle: string, i: nat, at: nat)
    requires i <= at <= |hay| && NoneWithin(hay, needle, i, at)
    ensures NextAt(hay, needle, i) == NextAt(hay, needle, at)
    decreases at - i
  {
    if i < at {
      assert !OccursAt(hay, needle, i);
      NoneBeforeNext(hay, needle, i + 1, at);
    }
  }

  /** hay.indexOf(needle, from) for a needle that is not empty. */
  method IndexOf(hay: string, needle: string, from: nat) returns (at: int)
    requires needle != ""
    ensures NextAt(hay, needle, from) == if at >= 0 then Some(at) else None
    ensures at >= 0 ==> at >= from && OccursAt(hay, needle, at) && NoneWithin(hay, needle, from, at)
    ensures at < 0 ==> NoneFrom(hay, needle, from)
  {
    at := from;
    while at < |hay|
      invariant from <= at
      invariant NoneWithin(hay, needle, from, at)
    {
      if needle <= hay[at..] {
        NoneBeforeNext(hay, needle, from, at);
        return;
      }
      at := at + 1;
    }
    if from <= |hay| {
      NoneBeforeNext(hay, needle, from, |hay|);
    }
    at := -1;
  }

  ghost predicate NoneFrom(hay: string, needle: string, from: nat) {
    forall p: nat :: p >= from ==> !OccursAt(hay, needle, p)
  }

  lemma NoneFromWithin(hay: string, needle: string, from: nat, to: nat)
    requires NoneFrom(hay, needle, from)
    ensures NoneWithin(hay, needle, from, to)
  {
  }

  ghost predicate NoneWithin(hay: string, needle: string, from: nat, to: nat) {
    forall p :: from <= p < to ==> !OccursAt(hay, needle, p)
  }

  /** Whether a run that starts at `at` is what the search of `hay` finds there. */
  ghost predicate IsFinding(hay: string, needle: string, r: Run, at: nat) {
    if r.hit then |r.text| == |needle| && OccursAt(hay, needle, at)
    else r.text != "" && NoneWithin(hay, needle, at, at + |r.text|)
  }

  /** Hits are occurrences, and no occurrence starts between them. */
  ghost predicate Findings(hay: string, needle: string, runs: seq<Run>, end: nat)
    decreases |runs|
  {
    if runs == [] then end == 0
    else
      var r := runs[|runs| - 1];
      |r.text| <= end && IsFinding(hay, needle, r, end - |r.text|) &&
        Findings(hay, needle, runs[..|runs| - 1], end - |r.text|)
  }

  lemma FindingsPush(hay: string, needle: string, runs: seq<Run>, at: nat, r: Run)
    requires Findings(hay, needle, runs, at) && IsFinding(hay, needle, r, at)
    ensures Findings(hay, needle, runs + [r], at + |r.text|)
  {
    assert (runs + [r])[..|runs|] == runs;
  }

  /** Searching keeps positions: one character of the line is one character of what is searched. */
  ghost predicate InStep(line: string, q: string, hay: string, needle: string) {
    |hay| == |line| && |needle| == |q|
  }

  ghost predicate SplitUpTo(line: string, q: string, hay: string, needle: string, runs: seq<Run>, i: nat) {
    RunText(runs) == Slice(line, 0, i) &&
      (InStep(line, q, hay, needle) ==> i <= |line| && Findings(hay, needle, runs, i))
  }

  lemma SplitOn(line: string, q: string, hay: string, needle: string, runs: seq<Run>, i: nat, j: nat, hit: bool)
    requires SplitUpTo(line, q, hay, needle, runs, i) && i <= j
    requires InStep(line, q, hay, needle) ==> j <= |line| && IsFinding(hay, needle, Run(line[i..j], hit), i)
    ensures SplitUpTo(line, q, hay, needle, runs + [Run(Slice(line, i, j), hit)], j)
  {
    RunPush(runs, Run(Slice(line, i, j), hit));
    SliceJoins(line, i, j);
    if InStep(line, q, hay, needle) {
      assert Slice(line, i, j) == line[i..j];
      FindingsPush(hay, needle, runs, i, Run(line[i..j], hit));
    }
  }

  lemma SplitEnds(line: string, q: string, hay: string, needle: string, runs: seq<Run>, i: nat)
    requires SplitUpTo(line, q, hay, needle, runs, i) && i >= |line|
    ensures RunText(runs) == line
    ensures InStep(line, q, hay, needle) ==> Findings(hay, needle, runs, |line|)
  {
  }

  lemma AddBetween(line: string, q: string, hay: string, needle: string, runs: seq<Run>, i: nat, at: nat)
    requires SplitUpTo(line, q, hay, needle, runs, i) && i < at
    requires InStep(line, q, hay, needle) ==> at <= |line| && NoneWithin(hay, needle, i, at)
    ensures SplitUpTo(line, q, hay, needle, runs + [Run(Slice(line, i, at), false)], at)
    ensures Hits(runs + [Run(Slice(line, i, at), false)]) == Hits(runs)
  {
    RunPush(runs, Run(Slice(line, i, at), false));
    SplitOn(line, q, hay, needle, runs, i, at, false);
  }

  lemma HitFits(line: string, q: string, hay: string, needle: string, at: nat)
    requires needle != "" && OccursAt(hay, needle, at) && InStep(line, q, hay, needle)
    ensures at + |q| <= |line| && IsFinding(hay, needle, Run(line[at..at + |q|], true), at)
  {
    OccurrenceFits(hay, needle, at);
    assert |line[at..at + |q|]| == |q|;
  }

  lemma AddHit(line: string, q: string, hay: string, needle: string, runs: seq<Run>, at: nat)
    requires SplitUpTo(line, q, hay, needle, runs, at) && needle != ""
    requires OccursAt(hay, needle, at)
    ensures SplitUpTo(line, q, hay, needle, runs + [Run(Slice(line, at, at + |q|), true)], at + |q|)
    ensures Hits(runs + [Run(Slice(line, at, at + |q|), true)]) == Hits(runs) + 1
  {
    RunPush(runs, Run(Slice(line, at, at + |q|), true));
    if InStep(line, q, hay, needle) {
      HitFits(line, q, hay, needle, at);
    }
    SplitOn(line, q, hay, needle, runs, at, at + |q|, true);
  }

  /** How many hits the search reports from `i` on for a line of `size` characters and a query of `width`: it reads
      positions of what it searches as positions of the line, even where they differ. */
  function SplitHits(size: nat, width: nat, hay: string, needle: string, i: nat): nat
    requires width > 0
    decreases size - i
  {
    if i >= size then 0
    else match NextAt(hay, needle, i)
      case None => 0
      case Some(at) => 1 + SplitHits(size, width, hay, needle, at + width)
  }

  /** What lies before a hit, and the hit. */
  method PushHit(line: string, q: string, hay: string, needle: string, runs0: seq<Run>, i0: nat, at: nat)
    returns (runs: seq<Run>)
    requires needle != "" && i0 <= at && OccursAt(hay, needle, at) && NoneWithin(hay, needle, i0, at)
    requires SplitUpTo(line, q, hay, needle, runs0, i0)
    ensures SplitUpTo(line, q, hay, needle, runs, at + |q|) && Hits(runs) == Hits(runs0) + 1
  {
    OccurrenceFits(hay, needle, at);
    runs := runs0;
    if at > i0 {
      AddBetween(line, q, hay, needle, runs0, i0, at);
      runs := runs0 + [Run(Slice(line, i0, at), false)];
    }
    AddHit(line, q, hay, needle, runs, at);
    runs := runs + [Run(Slice(line, at, at + |q|), true)];
  }

  /** The next hit and what lies before it, or the rest of the line. */
  method SplitOnce(line: string, q: string, hay: string, needle: string, runs0: seq<Run>, i0: nat)
    returns (runs: seq<Run>, i: nat)
    requires q != "" && needle != "" && i0 < |line| && SplitUpTo(line, q, hay, needle, runs0, i0)
    ensures i > i0 && SplitUpTo(line, q, hay, needle, runs, i)
    ensures Hits(runs) + SplitHits(|line|, |q|, hay, needle, i)
         == Hits(runs0) + SplitHits(|line|, |q|, hay, needle, i0)
  {
    var at := IndexOf(hay, needle, i0);
    if at < 0 {
      NoneFromWithin(hay, needle, i0, |line|);
      AddBetween(line, q, hay, needle, runs0, i0, |line|);
      return runs0 + [Run(Slice(line, i0, |line|), false)], |line|;
    }
    runs := PushHit(line, q, hay, needle, runs0, i0, at);
    i := at + |q|;
  }

  /** The runs spell the line whatever the search does to lengths; when it keeps them, hits are exactly the
      leftmost occurrences that do not overlap. */
  method SplitAtHits(line: string, q: string, hay: string, needle: string) returns (runs: seq<Run>)
    requires q != "" && needle != ""
    ensures RunText(runs) == line
    ensures Hits(runs) == SplitHits(|line|, |q|, hay, needle, 0)
    ensures InStep(line, q, hay, needle) ==> Findings(hay, needle, runs, |line|)
  {
    runs := [];
    var i := 0;
    while i < |line|
      invariant SplitUpTo(line, q, hay, needle, runs, i)
      invariant Hits(runs) + SplitHits(|line|, |q|, hay, needle, i) == SplitHits(|line|, |q|, hay, needle, 0)
    {
      runs, i := SplitOnce(line, q, hay, needle, runs, i);
    }
    SplitEnds(line, q, hay, needle, runs, i);
  }

  /** `trim` and `lower` are the string operations of the original; lower-casing may change the length. */
  method SplitByMatch(line: string, query: string, caseSensitive: bool, trim: string -> string, lower: string -> string)
    returns (runs: seq<Run>)
    requires forall s :: s != "" ==> lower(s) != ""
    ensures RunText(runs) == line
    ensures trim(query) == "" ==> runs == [Run(line, false)]
    ensures caseSensitive && trim(query) != "" ==>
              Hits(runs) == SplitHits(|line|, |trim(query)|, line, trim(query), 0)
    ensures !caseSensitive && trim(query) != "" ==>
              Hits(runs) == SplitHits(|line|, |trim(query)|, lower(line), lower(trim(query)), 0)
    ensures caseSensitive && trim(query) != "" ==> Findings(line, trim(query), runs, |line|)
    ensures !caseSensitive && trim(query) != "" && InStep(line, trim(query), lower(line), lower(trim(query))) ==>
              Findings(lower(line), lower(trim(query)), runs, |line|)
  {
    var q := trim(query);
    if q == "" {
      RunPush([], Run(line, false));
      assert [] + [Run(line, false)] == [Run(line, false)];
      return [Run(line, false)];
    }
    var needle := if caseSensitive then q else lower(q);
    var hay := if caseSensitive then line else lower(line);
    runs := SplitAtHits(line, q, hay, needle);
  }

  // ---- how many hits there are ----

  /** Leftmost occurrences from `i` on that do not overlap. */
  function CountFrom(hay: string, needle: string, i: nat): nat
    requires needle != ""
    decreases |hay| - i
  {
    if i >= |hay| then 0
    else if OccursAt(hay, needle, i) then 1 + CountFrom(hay, needle, i + |needle|)
    else CountFrom(hay, needle, i + 1)
  }

  lemma {:induction false} NothingBetween(hay: string, needle: string, i: nat, j: nat)
    requires needle != "" && i <= j && NoneWithin(hay, needle, i, j)
    ensures CountFrom(hay, needle, i) == CountFrom(hay, needle, j)
    decreases j - i
  {
    if i < j && i < |hay| {
      assert !OccursAt(hay, needle, i);
      NothingBetween(hay, needle, i + 1, j);
    }
  }

  lemma {:induction false} NextIsCounted(hay: string, needle: string, i: nat)
    requires needle != ""
    ensures CountFrom(hay, needle, i)
         == match NextAt(hay, needle, i) case None => 0 case Some(at) => 1 + CountFrom(hay, needle, at + |needle|)
    decreases |hay| - i
  {
    if i < |hay| && !OccursAt(hay, needle, i) {
      NextIsCounted(hay, needle, i + 1);
    }
  }

  /** When positions agree the search reports every leftmost occurrence that does not overlap. */
  lemma {:induction false} SplitHitsAreCounted(hay: string, needle: string, i: nat)
    requires needle != ""
    ensures SplitHits(|hay|, |needle|, hay, needle, i) == CountFrom(hay, needle, i)
    decreases |hay| - i
  {
    NextIsCounted(hay, needle, i);
    if i < |hay| && NextAt(hay, needle, i).Some? {
      SplitHitsAreCounted(hay, needle, NextAt(hay, needle, i).value + |needle|);
    }
  }

  /** The occurrences that start behind the `size` characters that the search goes through. */
  function Beyond(size: nat, hay: string, needle: string, i: nat): nat
    requires needle != ""
    decreases |hay| - i
  {
    if i >= size then CountFrom(hay, needle, i)
    else match NextAt(hay, needle, i)
      case None => 0
      case Some(at) => Beyond(size, hay, needle, at + |needle|)
  }

  /** The search misses exactly those. */
  lemma {:induction false} SplitHitsMissBeyond(size: nat, hay: string, needle: string, i: nat)
    requires needle != ""
    ensures SplitHits(size, |needle|, hay, needle, i) + Beyond(size, hay, needle, i) == CountFrom(hay, needle, i)
    decreases |hay| - i
  {
    NextIsCounted(hay, needle, i);
    if i < size && NextAt(hay, needle, i).Some? {
      SplitHitsMissBeyond(size, hay, needle, NextAt(hay, needle, i).value + |needle|);
    }
  }

  lemma {:induction false} HitsAreCounted(hay: string, needle: string, runs: seq<Run>, end: nat)
    requires needle != "" && Findings(hay, needle, runs, end)
    ensures Hits(runs) + CountFrom(hay, needle, end) == CountFrom(hay, needle, 0)
    decreases |runs|
  {
    if runs != [] {
      var r := runs[|runs| - 1];
      var at := end - |r.text|;
      HitsAreCounted(hay, needle, runs[..|runs| - 1], at);
      if r.hit {
        OccurrenceFits(hay, needle, at);
      } else {
        NothingBetween(hay, needle, at, end);
      }
    }
  }

  lemma OccurrenceFits(hay: string, needle: string, at: nat)
    requires needle != "" && OccursAt(hay, needle, at)
    ensures at + |needle| <= |hay|
  {
    assert |needle| <= |hay[at..]|;
  }

  lemma HitChar(hay: string, needle: string, at: nat, k: nat)
    requires OccursAt(hay, needle, at) && at <= k < at + |needle| && k < |hay|
    ensures hay[k] in needle
  {
    assert needle == hay[at..][..|needle|];
    assert needle[k - at] == hay[k];
  }

  /** A hit never crosses the newline between two texts. */
  lemma OccursOnOneSide(a: string, b: string, needle: string, i: nat)
    requires needle != "" && '\n' !in needle && i < |a|
    ensures OccursAt(a + "\n" + b, needle, i) <==> OccursAt(a, needle, i)
  {
    var whole := a + "\n" + b;
    if OccursAt(whole, needle, i) {
      assert needle == whole[i..][..|needle|];
      var k := |a|;
      if i + |needle| > k {
        HitChar(whole, needle, i, k);
      }
      assert needle == a[i..][..|needle|];
    }
    if OccursAt(a, needle, i) {
      assert needle == a[i..][..|needle|] == whole[i..][..|needle|];
    }
  }

  lemma {:induction false} CountShifts(pre: string, b: string, needle: string, i: nat)
    requires needle != "" && i <= |b|
    ensures CountFrom(pre + b, needle, |pre| + i) == CountFrom(b, needle, i)
    decreases |b| - i
  {
    if i < |b| {
      assert (pre + b)[|pre| + i..] == b[i..];
      if OccursAt(b, needle, i) {
        OccurrenceFits(b, needle, i);
        CountShifts(pre, b, needle, i + |needle|);
      } else {
        CountShifts(pre, b, needle, i + 1);
      }
    }
  }

  lemma {:induction false} CountSplits(a: string, b: string, needle: string, i: nat)
    requires needle != "" && '\n' !in needle && i <= |a|
    ensures CountFrom(a + "\n" + b, needle, i) == CountFrom(a, needle, i) + CountFrom(b, needle, 0)
    decreases |a| - i
  {
    var whole := a + "\n" + b;
    if i < |a| {
      OccursOnOneSide(a, b, needle, i);
      if OccursAt(a, needle, i) {
        OccurrenceFits(a, needle, i);
        CountSplits(a, b, needle, i + |needle|);
      } else {
        CountSplits(a, b, needle, i + 1);
      }
    } else {
      NewlineIsNoHit(a, b, needle);
      CountShifts(a + "\n", b, needle, 0);
    }
  }

  lemma NewlineIsNoHit(a: string, b: string, needle: string)
    requires needle != "" && '\n' !in needle
    ensures !OccursAt(a + "\n" + b, needle, |a|)
  {
    assert (a + "\n" + b)[|a|..][0] == '\n';
    assert needle[0] in needle;
  }

  function CountLines(lines: seq<string>, needle: string): nat
    requires needle != ""
  {
    if lines == [] then 0 else CountLines(lines[..|lines| - 1], needle) + CountFrom(lines[|lines| - 1], needle, 0)
  }

  /** A query without a newline has as many hits in the whole text as in its lines taken one by one. */
  lemma {:induction false} HitsPerLineAddUp(lines: seq<string>, needle: string)
    requires lines != [] && needle != "" && '\n' !in needle
    ensures CountFrom(Join(lines), needle, 0) == CountLines(lines, needle)
  {
    var last := |lines| - 1;
    if last > 0 {
      HitsPerLineAddUp(lines[..last], needle);
      CountSplits(Join(lines[..last]), lines[last], needle, 0);
    }
  }
}
