/** web/src/manifestSyntax.ts, mergeMatchRuns: search hits laid over syntax colours. */
module SearchOverlay {
  import opened ManifestTokens
  import opened SearchRuns

  datatype MatchRun = MatchRun(hit: bool, spans: seq<Token>)

  function Paint(s: string, typ: TokType): (g: seq<Glyph>)
    ensures |g| == |s| && forall i :: 0 <= i < |s| ==> g[i] == Glyph(s[i], typ)
  {
    seq(|s|, i requires 0 <= i < |s| => Glyph(s[i], typ))
  }

  function Painted(tokens: seq<Token>): seq<Glyph> {
    if tokens == [] then []
    else Painted(tokens[..|tokens| - 1]) + Paint(tokens[|tokens| - 1].text, tokens[|tokens| - 1].typ)
  }

  function RunsPainted(runs: seq<MatchRun>): seq<Glyph> {
    if runs == [] then [] else RunsPainted(runs[..|runs| - 1]) + Painted(runs[|runs| - 1].spans)
  }

  lemma PaintedPush(tokens: seq<Token>, tok: Token)
    ensures Painted(tokens + [tok]) == Painted(tokens) + Paint(tok.text, tok.typ)
  {
    assert (tokens + [tok])[..|tokens|] == tokens;
  }

  lemma {:induction false} PaintedSpellsText(tokens: seq<Token>)
    ensures |Painted(tokens)| == |Text(tokens)|
    ensures forall i :: 0 <= i < |Text(tokens)| ==> Painted(tokens)[i].c == Text(tokens)[i]
  {
    if tokens != [] {
      PaintedSpellsText(tokens[..|tokens| - 1]);
    }
  }

  lemma {:induction false} PaintedOfPrefix(tokens: seq<Token>, n: nat)
    requires n <= |tokens|
    ensures Painted(tokens[..n]) <= Painted(tokens)
    decreases |tokens| - n
  {
    if n < |tokens| {
      PaintedOfPrefix(tokens, n + 1);
      assert tokens[..n + 1] == tokens[..n] + [tokens[n]];
      PaintedPush(tokens[..n], tokens[n]);
    } else {
      assert tokens[..n] == tokens;
    }
  }

  // ---- the walk: `ti` tokens and `to` characters of the next are behind it ----

  ghost predicate IsPlace(tokens: seq<Token>, ti: nat, to: nat) {
    if ti < |tokens| then to <= |tokens[ti].text| else ti == |tokens| && to == 0
  }

  function Behind(tokens: seq<Token>, ti: nat, to: nat): seq<Glyph>
    requires IsPlace(tokens, ti, to)
  {
    Painted(tokens[..ti]) + if ti < |tokens| then Paint(tokens[ti].text[..to], tokens[ti].typ) else []
  }

  lemma BehindIsPrefix(tokens: seq<Token>, ti: nat, to: nat)
    requires IsPlace(tokens, ti, to)
    ensures Behind(tokens, ti, to) <= Painted(tokens)
  {
    if ti < |tokens| {
      PaintedOfPrefix(tokens, ti + 1);
      assert tokens[..ti + 1] == tokens[..ti] + [tokens[ti]];
      PaintedPush(tokens[..ti], tokens[ti]);
      var whole, part := Paint(tokens[ti].text, tokens[ti].typ), Paint(tokens[ti].text[..to], tokens[ti].typ);
      assert part == whole[..to];
    } else {
      assert tokens[..ti] == tokens;
    }
  }

  lemma StepOn(tokens: seq<Token>, ti: nat, to: nat, take: nat)
    requires ti < |tokens| && to + take <= |tokens[ti].text|
    ensures Behind(tokens, ti, to + take)
            == Behind(tokens, ti, to) + Paint(tokens[ti].text[to..to + take], tokens[ti].typ)
  {
  }

  lemma NextToken(tokens: seq<Token>, ti: nat)
    requires ti < |tokens|
    ensures IsPlace(tokens, ti + 1, 0)
    ensures Behind(tokens, ti + 1, 0) == Behind(tokens, ti, |tokens[ti].text|)
  {
    assert tokens[..ti + 1] == tokens[..ti] + [tokens[ti]];
    PaintedPush(tokens[..ti], tokens[ti]);
    assert tokens[ti].text[..|tokens[ti].text|] == tokens[ti].text;
    assert ti + 1 < |tokens| ==> Paint(tokens[ti + 1].text[..0], tokens[ti + 1].typ) == [];
  }

  /** `spans` show what lies between `before` and the place. */
  ghost predicate Took(tokens: seq<Token>, before: seq<Glyph>, ti: nat, to: nat, spans: seq<Token>) {
    IsPlace(tokens, ti, to) && Behind(tokens, ti, to) == before + Painted(spans)
  }

  lemma TakeOne(tokens: seq<Token>, before: seq<Glyph>, ti: nat, to: nat, spans: seq<Token>, take: nat)
    requires Took(tokens, before, ti, to, spans) && ti < |tokens| && to + take <= |tokens[ti].text|
    ensures Took(tokens, before, ti, to + take, spans + [Token(tokens[ti].text[to..to + take], tokens[ti].typ)])
    ensures |Painted(spans + [Token(tokens[ti].text[to..to + take], tokens[ti].typ)])| == |Painted(spans)| + take
  {
    var span := Token(tokens[ti].text[to..to + take], tokens[ti].typ);
    StepOn(tokens, ti, to, take);
    PaintedPush(spans, span);
    Assoc(before, Painted(spans), Paint(span.text, span.typ));
  }

  lemma Assoc<T>(a: seq<T>, b: seq<T>, c: seq<T>)
    ensures a + b + c == a + (b + c)
  {
  }

  lemma TakeNothing(tokens: seq<Token>, ti: nat, to: nat)
    requires IsPlace(tokens, ti, to)
    ensures Took(tokens, Behind(tokens, ti, to), ti, to, [])
  {
    assert Behind(tokens, ti, to) + [] == Behind(tokens, ti, to);
  }

  lemma Advance(tokens: seq<Token>, before: seq<Glyph>, ti: nat, spans: seq<Token>)
    requires ti < |tokens| && Took(tokens, before, ti, |tokens[ti].text|, spans)
    ensures Took(tokens, before, ti + 1, 0, spans)
  {
    NextToken(tokens, ti);
  }

  /** As much of the next token as is wanted. */
  method TakeSpan(tokens: seq<Token>, ti0: nat, to0: nat, wanted: nat, ghost before: seq<Glyph>, spans0: seq<Token>)
    returns (spans: seq<Token>, ti: nat, to: nat, remaining: nat)
    requires wanted > 0 && ti0 < |tokens| && Took(tokens, before, ti0, to0, spans0)
    ensures Took(tokens, before, ti, to, spans)
    ensures |Painted(spans)| + remaining == |Painted(spans0)| + wanted
    ensures ti0 < ti <= |tokens| || (ti == ti0 && remaining < wanted)
  {
    var tok := tokens[ti0];
    var take := if |tok.text| - to0 < wanted then |tok.text| - to0 else wanted;
    TakeOne(tokens, before, ti0, to0, spans0, take);
    spans := spans0 + [Token(tok.text[to0..to0 + take], tok.typ)];
    ti, to, remaining := ti0, to0 + take, wanted - take;
    if to >= |tok.text| {
      Advance(tokens, before, ti, spans);
      ti, to := ti + 1, 0;
    }
  }

  /** The spans of one run: the next `size` characters, or what is left. */
  method TakeSpans(tokens: seq<Token>, ti0: nat, to0: nat, size: nat, ghost before: seq<Glyph>)
    returns (spans: seq<Token>, ti: nat, to: nat)
    requires IsPlace(tokens, ti0, to0) && before == Behind(tokens, ti0, to0)
    ensures Took(tokens, before, ti, to, spans)
    ensures |Painted(spans)| <= size && (|Painted(spans)| < size ==> ti == |tokens|)
  {
    spans, ti, to := [], ti0, to0;
    TakeNothing(tokens, ti, to);
    var remaining: nat := size;
    while remaining > 0 && ti < |tokens|
      invariant Took(tokens, before, ti, to, spans) && ti <= |tokens|
      invariant |Painted(spans)| + remaining == size
      decreases |tokens| - ti, remaining
    {
      spans, ti, to, remaining := TakeSpan(tokens, ti, to, remaining, before, spans);
    }
  }

  /** A run keeps its text and whether it is a hit. */
  ghost predicate RunKept(r: Run, m: MatchRun) {
    m.hit == r.hit && Text(m.spans) == r.text
  }

  lemma {:induction false} RunTextOfPrefix(runs: seq<Run>, n: nat)
    requires n <= |runs|
    ensures RunText(runs[..n]) <= RunText(runs)
    decreases |runs| - n
  {
    if n < |runs| {
      RunTextOfPrefix(runs, n + 1);
      assert runs[..n + 1] == runs[..n] + [runs[n]];
      RunPush(runs[..n], runs[n]);
    } else {
      assert runs[..n] == runs;
    }
  }

  /** What the spans of run `n` spell is the run's text, once everything before it is behind the walk. */
  lemma SpansSpellRun(tokens: seq<Token>, runs: seq<Run>, n: nat, before: seq<Glyph>, spans: seq<Token>)
    requires Text(tokens) == RunText(runs) && n < |runs|
    requires |before| == |RunText(runs[..n])| && |Painted(spans)| == |runs[n].text|
    requires before + Painted(spans) <= Painted(tokens)
    ensures Text(spans) == runs[n].text
  {
    PaintedSpellsText(tokens);
    PaintedSpellsText(spans);
    RunTextOfPrefix(runs, n + 1);
    assert runs[..n + 1] == runs[..n] + [runs[n]];
    RunPush(runs[..n], runs[n]);
    var painted, done, text := Painted(spans), |before|, runs[n].text;
    MiddleAt(before, painted, Painted(tokens));
    MiddleAt(RunText(runs[..n]), text, RunText(runs));
    forall i | 0 <= i < |text| ensures Text(spans)[i] == text[i] {
      assert painted[i] == Painted(tokens)[done + i];
    }
  }

  /** A middle part is read off the whole. */
  lemma MiddleAt<T>(a: seq<T>, b: seq<T>, whole: seq<T>)
    requires a + b <= whole
    ensures |a| + |b| <= |whole| && forall i :: 0 <= i < |b| ==> b[i] == whole[|a| + i]
  {
    assert forall i :: 0 <= i < |b| ==> b[i] == (a + b)[|a| + i];
  }

  ghost predicate RunsKept(runs: seq<Run>, out: seq<MatchRun>) {
    |out| <= |runs| && forall k :: 0 <= k < |out| ==> RunKept(runs[k], out[k])
  }

  lemma KeepOne(runs: seq<Run>, out: seq<MatchRun>, m: MatchRun)
    requires RunsKept(runs, out) && |out| < |runs| && RunKept(runs[|out|], m)
    ensures RunsKept(runs, out + [m])
  {
    forall k | 0 <= k < |out + [m]| ensures RunKept(runs[k], (out + [m])[k]) {
      assert k < |out| ==> RunKept(runs[k], out[k]);
    }
  }

  lemma RunsPaintedPush(out: seq<MatchRun>, m: MatchRun)
    ensures RunsPainted(out + [m]) == RunsPainted(out) + Painted(m.spans)
  {
    assert (out + [m])[..|out|] == out;
  }

  /** After `r` runs: each kept, and everything they hold is behind the walk. */
  ghost predicate Merged(tokens: seq<Token>, runs: seq<Run>, r: nat, out: seq<MatchRun>, ti: nat, to: nat) {
    && r <= |runs| && IsPlace(tokens, ti, to)
    && |out| == r && RunsKept(runs, out)
    && RunsPainted(out) == Behind(tokens, ti, to)
    && |RunsPainted(out)| == |RunText(runs[..r])|
  }

  lemma MergeOne(tokens: seq<Token>, runs: seq<Run>, r: nat, out: seq<MatchRun>, ti0: nat, to0: nat,
                 spans: seq<Token>, ti: nat, to: nat)
    requires Text(tokens) == RunText(runs) && Merged(tokens, runs, r, out, ti0, to0) && r < |runs|
    requires Took(tokens, Behind(tokens, ti0, to0), ti, to, spans)
    requires |Painted(spans)| <= |runs[r].text| && (|Painted(spans)| < |runs[r].text| ==> ti == |tokens|)
    ensures Merged(tokens, runs, r + 1, out + [MatchRun(runs[r].hit, spans)], ti, to)
  {
    SpansAreFull(tokens, runs, r, Behind(tokens, ti0, to0), spans, ti, to);
    KeepOne(runs, out, MatchRun(runs[r].hit, spans));
    RunsPaintedPush(out, MatchRun(runs[r].hit, spans));
  }

  lemma MergeEnds(tokens: seq<Token>, runs: seq<Run>, out: seq<MatchRun>, ti: nat, to: nat)
    requires Text(tokens) == RunText(runs) && Merged(tokens, runs, |runs|, out, ti, to)
    ensures RunsPainted(out) == Painted(tokens)
  {
    assert runs[..|runs|] == runs;
    PaintedSpellsText(tokens);
    BehindIsPrefix(tokens, ti, to);
  }

  /** Each run keeps its text, and each character the type of its token. */
  method MergeMatchRuns(tokens: seq<Token>, runs: seq<Run>) returns (out: seq<MatchRun>)
    requires Text(tokens) == RunText(runs)
    ensures |out| == |runs| && RunsKept(runs, out)
    ensures RunsPainted(out) == Painted(tokens)
  {
    out := [];
    var ti, to := 0, 0;
    PlaceStarts(tokens);
    for r := 0 to |runs|
      invariant Merged(tokens, runs, r, out, ti, to)
    {
      var ti0, to0 := ti, to;
      var spans;
      spans, ti, to := TakeSpans(tokens, ti0, to0, |runs[r].text|, Behind(tokens, ti0, to0));
      MergeOne(tokens, runs, r, out, ti0, to0, spans, ti, to);
      out := out + [MatchRun(runs[r].hit, spans)];
    }
    MergeEnds(tokens, runs, out, ti, to);
  }

  lemma PlaceStarts(tokens: seq<Token>)
    ensures IsPlace(tokens, 0, 0) && Behind(tokens, 0, 0) == []
  {
  }

  lemma SpansAreFull(tokens: seq<Token>, runs: seq<Run>, r: nat, before: seq<Glyph>, spans: seq<Token>, ti: nat,
                     to: nat)
    requires Text(tokens) == RunText(runs) && r < |runs|
    requires Took(tokens, before, ti, to, spans)
    requires |before| == |RunText(runs[..r])|
    requires |Painted(spans)| <= |runs[r].text| && (|Painted(spans)| < |runs[r].text| ==> ti == |tokens|)
    ensures Text(spans) == runs[r].text && |Painted(spans)| == |runs[r].text|
    ensures |RunText(runs[..r + 1])| == |before| + |runs[r].text|
  {
    PaintedSpellsText(tokens);
    RunTextOfPrefix(runs, r + 1);
    assert runs[..r + 1] == runs[..r] + [runs[r]];
    RunPush(runs[..r], runs[r]);
    BehindIsPrefix(tokens, ti, to);
    assert ti == |tokens| ==> tokens[..ti] == tokens;
    SpansSpellRun(tokens, runs, r, before, spans);
  }
}
