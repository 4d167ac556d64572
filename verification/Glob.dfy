/** internal/rbac/rbac.go: glob patterns. The greedy leftmost search decides what '*' means. */
module Glob {
  import opened Prelude

  function Stars(p: string): nat {
    if p == "" then 0 else (if p[0] == '*' then 1 else 0) + Stars(p[1..])
  }

  /** The pattern with its stars, in order, replaced by strings. */
  function Substitute(p: string, fills: seq<string>): string
    requires |fills| == Stars(p)
  {
    if p == "" then ""
    else if p[0] == '*' then fills[0] + Substitute(p[1..], fills[1..])
    else [p[0]] + Substitute(p[1..], fills)
  }

  /** Each '*' stands for some string. */
  ghost predicate Matches(p: string, v: string) {
    exists fills: seq<string> :: |fills| == Stars(p) && Substitute(p, fills) == v
  }

  /** strings.Split(p, "*") */
  function Split(p: string): (segs: seq<string>)
    ensures |segs| == Stars(p) + 1
  {
    if p == "" then [""]
    else
      var rest := Split(p[1..]);
      if p[0] == '*' then [""] + rest
      else [[p[0]] + rest[0]] + rest[1..]
  }

  function Filled(segs: seq<string>, fills: seq<string>): string
    requires |segs| == |fills| + 1
  {
    if fills == [] then segs[0] else segs[0] + fills[0] + Filled(segs[1..], fills[1..])
  }

  lemma {:induction false} SubstituteFillsGaps(p: string, fills: seq<string>)
    requires |fills| == Stars(p)
    ensures Substitute(p, fills) == Filled(Split(p), fills)
  {
    if p != "" {
      var rest := Split(p[1..]);
      if p[0] == '*' {
        SubstituteFillsGaps(p[1..], fills[1..]);
        assert Split(p)[1..] == rest;
      } else {
        SubstituteFillsGaps(p[1..], fills);
        assert Split(p)[1..] == rest[1..];
      }
    }
  }

  /** The value starts with the first segment and what follows can be split over the others. */
  ghost predicate Anchored(segs: seq<string>, v: string)
    requires segs != []
    decreases |segs|, 0
  {
    segs[0] <= v && if |segs| == 1 then v == segs[0] else Floating(segs[1..], v[|segs[0]|..])
  }

  /** The same after some string in front. */
  ghost predicate Floating(segs: seq<string>, v: string)
    requires segs != []
    decreases |segs|, 1
  {
    exists k: nat :: k <= |v| && Anchored(segs, v[k..])
  }

  lemma {:induction false} FilledIsAnchored(segs: seq<string>, fills: seq<string>)
    requires |segs| == |fills| + 1
    ensures Anchored(segs, Filled(segs, fills))
  {
    if fills != [] {
      var v, tail := Filled(segs, fills), Filled(segs[1..], fills[1..]);
      FilledIsAnchored(segs[1..], fills[1..]);
      assert v[|segs[0]|..][|fills[0]|..] == tail;
    }
  }

  lemma {:induction false} AnchoredIsFilled(segs: seq<string>, v: string) returns (fills: seq<string>)
    requires segs != [] && Anchored(segs, v)
    ensures |segs| == |fills| + 1 && Filled(segs, fills) == v
    decreases |segs|
  {
    if |segs| == 1 {
      return [];
    }
    var after := v[|segs[0]|..];
    var k: nat :| k <= |after| && Anchored(segs[1..], after[k..]);
    var more := AnchoredIsFilled(segs[1..], after[k..]);
    fills := [after[..k]] + more;
    OneMoreGap(segs, v, k, more);
  }

  lemma OneMoreGap(segs: seq<string>, v: string, k: nat, more: seq<string>)
    requires |segs| == |more| + 2 && segs[0] <= v && k <= |v| - |segs[0]|
    requires Filled(segs[1..], more) == v[|segs[0]|..][k..]
    ensures Filled(segs, [v[|segs[0]|..][..k]] + more) == v
  {
    var after := v[|segs[0]|..];
    var fills := [after[..k]] + more;
    assert fills[1..] == more;
    assert Filled(segs, fills) == segs[0] + after[..k] + after[k..];
  }

  lemma MatchesIsAnchored(p: string, v: string)
    ensures Matches(p, v) <==> Anchored(Split(p), v)
  {
    if Matches(p, v) {
      var fills: seq<string> :| |fills| == Stars(p) && Substitute(p, fills) == v;
      SubstituteFillsGaps(p, fills);
      FilledIsAnchored(Split(p), fills);
    }
    if Anchored(Split(p), v) {
      var fills := AnchoredIsFilled(Split(p), v);
      SubstituteFillsGaps(p, fills);
    }
  }

  /** More room in front never hurts: why taking the leftmost occurrence loses nothing. */
  lemma FloatingFromFurther(segs: seq<string>, v: string, j: nat)
    requires segs != [] && j <= |v| && Floating(segs, v[j..])
    ensures Floating(segs, v)
  {
    var k: nat :| k <= |v[j..]| && Anchored(segs, v[j..][k..]);
    assert v[j..][k..] == v[j + k..];
  }

  lemma LeftmostIsEnough(segs: seq<string>, v: string, at: nat)
    requires |segs| > 1 && OccursAt(v, segs[0], at)
    requires forall k: nat :: k < at ==> !OccursAt(v, segs[0], k)
    ensures Floating(segs, v) <==> Floating(segs[1..], v[at + |segs[0]|..])
  {
    var n := |segs[0]|;
    if Floating(segs, v) {
      var k: nat :| k <= |v| && Anchored(segs, v[k..]);
      assert OccursAt(v, segs[0], k);
      assert v[k..][n..] == v[at + n..][k - at..];
      FloatingFromFurther(segs[1..], v[at + n..], k - at);
    }
    if Floating(segs[1..], v[at + n..]) {
      assert v[at..][n..] == v[at + n..];
      assert Anchored(segs, v[at..]);
    }
  }

  lemma NowhereIsNoMatch(segs: seq<string>, v: string)
    requires segs != [] && forall k: nat :: !OccursAt(v, segs[0], k)
    ensures !Floating(segs, v)
  {
    forall k: nat | k <= |v| ensures !Anchored(segs, v[k..]) {
      assert !OccursAt(v, segs[0], k);
    }
  }

  lemma LastIsSuffix(segs: seq<string>, v: string)
    requires |segs| == 1
    ensures Floating(segs, v) <==> |segs[0]| <= |v| && v[|v| - |segs[0]|..] == segs[0]
  {
    if |segs[0]| <= |v| && v[|v| - |segs[0]|..] == segs[0] {
      assert Anchored(segs, v[|v| - |segs[0]|..]);
    }
  }

  /** strings.Index: the leftmost occurrence, or -1. */
  method Index(v: string, seg: string) returns (at: int)
    ensures at >= 0 ==> OccursAt(v, seg, at) && forall k: nat :: k < at ==> !OccursAt(v, seg, k)
    ensures at < 0 ==> forall k: nat :: !OccursAt(v, seg, k)
  {
    at := 0;
    while at <= |v|
      invariant 0 <= at <= |v| + 1
      invariant forall k: nat :: k < at ==> !OccursAt(v, seg, k)
    {
      if seg <= v[at..] {
        return;
      }
      at := at + 1;
    }
    at := -1;
  }

  lemma NoStarMatchesItself(p: string, v: string)
    requires '*' !in p
    ensures Matches(p, v) <==> p == v
  {
    MatchesIsAnchored(p, v);
    SplitWithoutStar(p);
  }

  lemma {:induction false} SplitWithoutStar(p: string)
    requires '*' !in p
    ensures Split(p) == [p]
  {
    if p != "" {
      SplitWithoutStar(p[1..]);
      assert p == [p[0]] + p[1..];
    }
  }

  lemma {:induction false} EveryStarForItself(p: string) returns (fills: seq<string>)
    ensures |fills| == Stars(p) && Substitute(p, fills) == p
  {
    if p == "" {
      return [];
    }
    var rest := EveryStarForItself(p[1..]);
    fills := if p[0] == '*' then ["*"] + rest else rest;
    assert p[0] == '*' ==> fills[1..] == rest;
    assert p == [p[0]] + p[1..];
  }

  lemma StarMatchesAll(v: string)
    ensures Matches("*", v)
  {
    assert Substitute("*", [v]) == v + Substitute("", []);
  }

  lemma {:induction false} SomeStar(p: string)
    requires '*' in p
    ensures Stars(p) > 0
  {
    if p[0] != '*' {
      SomeStar(p[1..]);
    }
  }

  /** True exactly when the value is the pattern with each '*' replaced by some string. */
  method GlobMatch(pattern: string, value: string) returns (ok: bool)
    ensures ok <==> Matches(pattern, value)
  {
    if pattern == "*" || pattern == value {
      StarMatchesAll(value);
      ghost var fills := EveryStarForItself(pattern);
      return true;
    }
    if '*' !in pattern {
      NoStarMatchesItself(pattern, value);
      return false;
    }
    MatchesIsAnchored(pattern, value);
    SomeStar(pattern);
    ok := MatchSegments(Split(pattern), value);
  }

  lemma SkipEmpty(segments: seq<string>, value: string, rest: string, i: nat)
    requires |segments| > 1 && i < |segments| && segments[i] == ""
    requires if i == 0 then rest == value else Anchored(segments, value) <==> Floating(segments[i..], rest)
    ensures if i == |segments| - 1 then Anchored(segments, value)
            else Anchored(segments, value) <==> Floating(segments[i + 1..], rest)
  {
    assert rest[0..] == rest;
    if i > 0 {
      assert i < |segments| - 1 ==> segments[i..][1..] == segments[i + 1..];
      if i == |segments| - 1 {
        LastIsSuffix(segments[i..], rest);
      } else {
        LeftmostIsEnough(segments[i..], rest, 0);
      }
    }
  }

  method MatchSegments(segments: seq<string>, value: string) returns (ok: bool)
    requires |segments| > 1
    ensures ok <==> Anchored(segments, value)
  {
    var rest := value;
    for i := 0 to |segments|
      invariant i == 0 ==> rest == value
      invariant 0 < i < |segments| ==> (Anchored(segments, value) <==> Floating(segments[i..], rest))
      invariant i == |segments| ==> Anchored(segments, value)
    {
      var seg := segments[i];
      if seg == "" {
        SkipEmpty(segments, value, rest, i);
        continue;
      }
      if i == 0 {
        if !(seg <= rest) {
          return false;
        }
        rest := rest[|seg|..];
      } else if i == |segments| - 1 {
        LastIsSuffix(segments[i..], rest);
        if |seg| > |rest| || rest[|rest| - |seg|..] != seg {
          return false;
        }
      } else {
        assert segments[i..][1..] == segments[i + 1..];
        var at := Index(rest, seg);
        if at < 0 {
          NowhereIsNoMatch(segments[i..], rest);
          return false;
        }
        LeftmostIsEnough(segments[i..], rest, at);
        rest := rest[at + |seg|..];
      }
    }
    return true;
  }
}
