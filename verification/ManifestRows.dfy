/**
 web/src/components/ManifestPanel.tsx over manifestSyntax.ts and logs.ts: the rows of a manifest under a find query
 and collapsed folds, and the match count beside them, which is taken over the whole text.
 */
module ManifestRows {
  import opened Prelude
  import opened ManifestTokens
  import opened TextLines
  import opened ManifestLines
  import opened SearchRuns
  import opened Folds
  import O = SearchOverlay

  /** A find query, with the string operations of the original: lower-casing may change the length of a string. */
  datatype Find = Find(query: string, trim: string -> string, lower: string -> string) {
    function Trimmed(): string {
      trim(query)
    }

    ghost predicate Valid() {
      |Trimmed()| <= |query| && forall s :: |s| > 0 ==> |lower(s)| > 0
    }
  }

  // ---- hits in a row and in the whole text ----

  /** How many hits splitByMatch reports in a text. */
  function HitsIn(text: string, f: Find): nat {
    if |f.Trimmed()| == 0 then 0
    else SplitHits(|text|, |f.Trimmed()|, f.lower(text), f.lower(f.Trimmed()), 0)
  }

  method FindHits(line: string, f: Find) returns (runs: seq<Run>)
    requires f.Valid()
    ensures RunText(runs) == line && Hits(runs) == HitsIn(line, f)
  {
    runs := SplitByMatch(line, f.query, false, f.trim, f.lower);
    if |f.Trimmed()| == 0 {
      RunPush([], runs[0]);
      assert [] + [runs[0]] == runs;
    }
  }

  function OverlayHits(runs: seq<O.MatchRun>): nat {
    if runs == [] then 0 else OverlayHits(runs[..|runs| - 1]) + if runs[|runs| - 1].hit then 1 else 0
  }

  function RowHits(shown: seq<seq<O.MatchRun>>): nat {
    if shown == [] then 0 else RowHits(shown[..|shown| - 1]) + OverlayHits(shown[|shown| - 1])
  }

  lemma {:induction false} OverlayKeepsHits(runs: seq<Run>, out: seq<O.MatchRun>)
    requires |out| == |runs| && O.RunsKept(runs, out)
    ensures OverlayHits(out) == Hits(runs)
  {
    if runs != [] {
      var last := |runs| - 1;
      assert O.RunKept(runs[last], out[last]);
      assert O.RunsKept(runs[..last], out[..last]) by {
        assert forall k :: 0 <= k < last ==> O.RunKept(runs[k], out[k]);
      }
      OverlayKeepsHits(runs[..last], out[..last]);
    }
  }

  function HitsInLines(lines: seq<string>, f: Find): nat {
    if lines == [] then 0 else HitsInLines(lines[..|lines| - 1], f) + HitsIn(lines[|lines| - 1], f)
  }

  function LowerLines(lines: seq<string>, f: Find): (r: seq<string>)
    ensures |r| == |lines| && forall i :: 0 <= i < |lines| ==> r[i] == f.lower(lines[i])
  {
    seq(|lines|, i requires 0 <= i < |lines| => f.lower(lines[i]))
  }

  ghost predicate KeepsLength(f: Find, s: string) {
    |f.lower(s)| == |s|
  }

  /** Lower-casing keeps the length of the query, brings no newline into it, and works line by line. */
  ghost predicate LowersByLine(f: Find, lines: seq<string>)
    requires lines != []
  {
    && KeepsLength(f, f.Trimmed()) && '\n' !in f.lower(f.Trimmed())
    && f.lower(Join(lines)) == Join(LowerLines(lines, f))
  }

  /** The occurrences in the lowered text that start behind the length of the text itself. */
  function BeyondIn(text: string, f: Find): nat {
    if |f.Trimmed()| == 0 || |f.lower(f.Trimmed())| == 0 then 0
    else Beyond(|text|, f.lower(text), f.lower(f.Trimmed()), 0)
  }

  function BeyondInLines(lines: seq<string>, f: Find): nat {
    if lines == [] then 0 else BeyondInLines(lines[..|lines| - 1], f) + BeyondIn(lines[|lines| - 1], f)
  }

  lemma HitsMissBeyond(text: string, f: Find)
    requires |f.Trimmed()| > 0 && KeepsLength(f, f.Trimmed())
    ensures HitsIn(text, f) + BeyondIn(text, f) == CountFrom(f.lower(text), f.lower(f.Trimmed()), 0)
  {
    SplitHitsMissBeyond(|text|, f.lower(text), f.lower(f.Trimmed()), 0);
  }

  lemma {:induction false} HitsInLinesMissBeyond(lines: seq<string>, f: Find)
    requires |f.Trimmed()| > 0 && KeepsLength(f, f.Trimmed())
    ensures HitsInLines(lines, f) + BeyondInLines(lines, f) == CountLines(LowerLines(lines, f), f.lower(f.Trimmed()))
  {
    if lines != [] {
      var last := |lines| - 1;
      HitsInLinesMissBeyond(lines[..last], f);
      HitsMissBeyond(lines[last], f);
      assert LowerLines(lines, f)[..last] == LowerLines(lines[..last], f);
    }
  }

  lemma {:induction false} NoQueryNoHits(lines: seq<string>, f: Find)
    requires |f.Trimmed()| == 0
    ensures HitsInLines(lines, f) == 0 && BeyondInLines(lines, f) == 0
  {
    if lines != [] {
      NoQueryNoHits(lines[..|lines| - 1], f);
    }
  }

  /** Counted with what lies beyond, the whole text and its lines have the same hits. */
  lemma TotalsWithBeyond(lines: seq<string>, f: Find)
    requires lines != [] && LowersByLine(f, lines)
    ensures HitsIn(Join(lines), f) + BeyondIn(Join(lines), f) == HitsInLines(lines, f) + BeyondInLines(lines, f)
  {
    if |f.Trimmed()| == 0 {
      NoQueryNoHits(lines, f);
    } else {
      HitsMissBeyond(Join(lines), f);
      HitsInLinesMissBeyond(lines, f);
      HitsPerLineAddUp(LowerLines(lines, f), f.lower(f.Trimmed()));
    }
  }

  /** Counting over the whole text and over its lines comes to the same exactly when as many occurrences lie beyond the
      text as lie beyond its lines. */
  lemma WholeTextCountIffBeyond(lines: seq<string>, f: Find)
    requires lines != [] && LowersByLine(f, lines)
    ensures HitsIn(Join(lines), f) == HitsInLines(lines, f) <==> BeyondIn(Join(lines), f) == BeyondInLines(lines, f)
  {
    TotalsWithBeyond(lines, f);
  }

  // ---- when lower-casing keeps all lengths ----

  ghost predicate LowersInPlace(f: Find, lines: seq<string>)
    requires lines != []
  {
    LowersByLine(f, lines) && forall i :: 0 <= i < |lines| ==> KeepsLength(f, lines[i])
  }

  lemma {:induction false} JoinLength(lines: seq<string>, f: Find)
    requires lines != [] && forall i :: 0 <= i < |lines| ==> KeepsLength(f, lines[i])
    ensures |Join(LowerLines(lines, f))| == |Join(lines)|
  {
    var last := |lines| - 1;
    assert KeepsLength(f, lines[last]);
    if last > 0 {
      assert LowerLines(lines, f)[..last] == LowerLines(lines[..last], f);
      JoinLength(lines[..last], f);
    }
  }

  lemma NothingBeyond(text: string, f: Find)
    requires KeepsLength(f, f.Trimmed()) && KeepsLength(f, text)
    ensures BeyondIn(text, f) == 0
  {
    if |f.Trimmed()| > 0 {
      HitsMissBeyond(text, f);
      SplitHitsAreCounted(f.lower(text), f.lower(f.Trimmed()), 0);
    }
  }

  lemma {:induction false} NothingBeyondLines(lines: seq<string>, f: Find)
    requires KeepsLength(f, f.Trimmed()) && forall i :: 0 <= i < |lines| ==> KeepsLength(f, lines[i])
    ensures BeyondInLines(lines, f) == 0
  {
    if lines != [] {
      assert KeepsLength(f, lines[|lines| - 1]);
      NothingBeyond(lines[|lines| - 1], f);
      NothingBeyondLines(lines[..|lines| - 1], f);
    }
  }

  /** Then nothing lies beyond, and the totals agree. */
  lemma WholeTextCountIsLineCount(lines: seq<string>, f: Find)
    requires lines != [] && LowersInPlace(f, lines)
    ensures HitsIn(Join(lines), f) == HitsInLines(lines, f)
  {
    JoinLength(lines, f);
    NothingBeyond(Join(lines), f);
    NothingBeyondLines(lines, f);
    TotalsWithBeyond(lines, f);
  }

  // ---- a text that grows when lower-cased ----

  lemma SkipTo(hay: string, c: char, i: nat, at: nat)
    requires i <= at <= |hay| && (forall k :: i <= k < at ==> hay[k] != c) && (at < |hay| ==> hay[at] == c)
    ensures NextAt(hay, [c], i) == if at < |hay| then Some(at) else None
  {
    forall k | i <= k < at ensures !OccursAt(hay, [c], k) {
      assert hay[k..][0] == hay[k];
    }
    NoneBeforeNext(hay, [c], i, at);
  }

  lemma HitAt(size: nat, width: nat, hay: string, needle: string, i: nat, at: nat)
    requires width > 0 && i < size && NextAt(hay, needle, i) == Some(at)
    ensures SplitHits(size, width, hay, needle, i) == 1 + SplitHits(size, width, hay, needle, at + width)
  {
  }

  /** `a` holds two capital I with a dot, each of which lower-cases to an i and a combining dot, `b` two x, and the
      query is an x. */
  ghost predicate IsGrowing(f: Find, a: string, b: string, x: string) {
    && a == ['\U{0130}', '\U{0130}'] && b == ['x', 'x'] && x == ['x'] && f.Trimmed() == x
    && f.lower(a) == ['i', '\U{0307}', 'i', '\U{0307}'] && f.lower(b) == b && f.lower(x) == x
    && f.lower(a + "\n" + b) == f.lower(a) + "\n" + b
  }

  lemma DottedHits(f: Find, a: string, b: string, x: string)
    requires IsGrowing(f, a, b, x)
    ensures HitsIn(a, f) == 0
  {
    SkipTo(f.lower(a), x[0], 0, 4);
    assert x == [x[0]];
  }

  lemma PlainHits(f: Find, a: string, b: string, x: string)
    requires IsGrowing(f, a, b, x)
    ensures HitsIn(b, f) == 2
  {
    assert x == [x[0]];
    SkipTo(b, x[0], 0, 0);
    SkipTo(b, x[0], 1, 1);
    HitAt(|b|, |x|, b, x, 0, 0);
    HitAt(|b|, |x|, b, x, 1, 1);
  }

  lemma WholeHits(f: Find, a: string, b: string, x: string)
    requires IsGrowing(f, a, b, x)
    ensures HitsIn(a + "\n" + b, f) == 1
  {
    var text, hay := a + "\n" + b, f.lower(a) + "\n" + b;
    assert x == [x[0]];
    SkipTo(hay, x[0], 0, 5);
    HitAt(|text|, |x|, hay, x, 0, 5);
  }

  /** Behind the dotted line the whole text is searched two positions too far: its total misses a hit that the rows
      mark. */
  lemma GrowingTextLosesAHit(f: Find, a: string, b: string, x: string)
    requires IsGrowing(f, a, b, x)
    ensures HitsIn(Join([a, b]), f) == 1 && HitsInLines([a, b], f) == 2
  {
    DottedHits(f, a, b, x);
    PlainHits(f, a, b, x);
    WholeHits(f, a, b, x);
    var lines := [a, b];
    assert lines[..1] == [a];
    HitsInLinesNext(lines, 1, f);
    HitsInLinesNext(lines, 0, f);
    assert lines[..2] == lines && Join([a]) == a;
  }

  // ---- the rows ----

  ghost predicate IsSpelled(line: ManifestLine) {
    Text(line.tokens) == line.text
  }

  ghost predicate AllSpelled(lines: seq<ManifestLine>) {
    forall i :: 0 <= i < |lines| ==> IsSpelled(lines[i])
  }

  /** The row keeps every character of the line in its colour. */
  ghost predicate RowShows(shown: seq<O.MatchRun>, line: ManifestLine) {
    O.RunsPainted(shown) == O.Painted(line.tokens)
  }

  /** The colours of one line under the hits of the query. */
  method ShowLine(line: ManifestLine, f: Find) returns (shown: seq<O.MatchRun>)
    requires f.Valid() && IsSpelled(line)
    ensures RowShows(shown, line) && OverlayHits(shown) == HitsIn(line.text, f)
  {
    var runs := FindHits(line.text, f);
    shown := O.MergeMatchRuns(line.tokens, runs);
    OverlayKeepsHits(runs, shown);
  }

  lemma RowHitsPush(shown: seq<seq<O.MatchRun>>, row: seq<O.MatchRun>)
    ensures RowHits(shown + [row]) == RowHits(shown) + OverlayHits(row)
  {
    assert (shown + [row])[..|shown|] == shown;
  }

  lemma HitsInLinesNext(lines: seq<string>, i: nat, f: Find)
    requires i < |lines|
    ensures HitsInLines(lines[..i + 1], f) == HitsInLines(lines[..i], f) + HitsIn(lines[i], f)
  {
    assert lines[..i + 1][..i] == lines[..i];
  }

  /** What all rows show, one after the other. */
  function AllPainted(shown: seq<seq<O.MatchRun>>): seq<Glyph> {
    if shown == [] then [] else AllPainted(shown[..|shown| - 1]) + O.RunsPainted(shown[|shown| - 1])
  }

  lemma {:induction false} GlyphsOfLine(s: string, typ: TokType)
    requires '\n' !in s
    ensures Glyphs(s, typ) == O.Paint(s, typ)
  {
    if s != "" {
      GlyphsOfLine(s[..|s| - 1], typ);
    }
  }

  lemma {:induction false} PaintedAreGlyphs(tokens: seq<Token>)
    requires '\n' !in Text(tokens)
    ensures O.Painted(tokens) == TokenGlyphs(tokens)
  {
    if tokens != [] {
      PaintedAreGlyphs(tokens[..|tokens| - 1]);
      GlyphsOfLine(tokens[|tokens| - 1].text, tokens[|tokens| - 1].typ);
    }
  }

  /** A row shows the characters of its line. */
  ghost predicate RowSpells(shown: seq<O.MatchRun>, text: string) {
    |O.RunsPainted(shown)| == |text| && forall j :: 0 <= j < |text| ==> O.RunsPainted(shown)[j].c == text[j]
  }

  ghost predicate RowsSpell(shown: seq<seq<O.MatchRun>>, texts: seq<string>) {
    |shown| <= |texts| && forall k :: 0 <= k < |shown| ==> RowSpells(shown[k], texts[k])
  }

  /** The first `i` rows: their hits, their glyphs and their texts are those of the first `i` lines. */
  ghost predicate RowsAt(lines: seq<ManifestLine>, f: Find, i: nat, shown: seq<seq<O.MatchRun>>)
    requires i <= |lines|
  {
    && |shown| == i && RowHits(shown) == HitsInLines(Texts(lines)[..i], f)
    && AllPainted(shown) == LineGlyphs(lines[..i]) && RowsSpell(shown, Texts(lines))
  }

  lemma PaintedNext(lines: seq<ManifestLine>, i: nat, shown: seq<seq<O.MatchRun>>, row: seq<O.MatchRun>)
    requires i < |lines| && AllPainted(shown) == LineGlyphs(lines[..i])
    requires RowShows(row, lines[i]) && '\n' !in Text(lines[i].tokens)
    ensures AllPainted(shown + [row]) == LineGlyphs(lines[..i + 1])
  {
    PaintedAreGlyphs(lines[i].tokens);
    assert (shown + [row])[..|shown|] == shown;
    assert lines[..i + 1] == lines[..i] + [lines[i]];
    LineGlyphsPush(lines[..i], lines[i]);
  }

  lemma SpellNext(texts: seq<string>, shown: seq<seq<O.MatchRun>>, row: seq<O.MatchRun>, line: ManifestLine)
    requires RowsSpell(shown, texts) && |shown| < |texts| && line.text == texts[|shown|]
    requires RowShows(row, line) && IsSpelled(line)
    ensures RowsSpell(shown + [row], texts)
  {
    O.PaintedSpellsText(line.tokens);
    assert RowSpells(row, texts[|shown|]);
    forall k | 0 <= k < |shown + [row]| ensures RowSpells((shown + [row])[k], texts[k]) {
      assert k < |shown| ==> RowSpells(shown[k], texts[k]);
    }
  }

  lemma RowsAtNext(lines: seq<ManifestLine>, f: Find, i: nat, shown: seq<seq<O.MatchRun>>, row: seq<O.MatchRun>)
    requires i < |lines| && RowsAt(lines, f, i, shown) && IsSpelled(lines[i]) && '\n' !in lines[i].text
    requires RowShows(row, lines[i]) && OverlayHits(row) == HitsIn(lines[i].text, f)
    ensures RowsAt(lines, f, i + 1, shown + [row])
  {
    RowHitsPush(shown, row);
    HitsInLinesNext(Texts(lines), i, f);
    PaintedNext(lines, i, shown, row);
    SpellNext(Texts(lines), shown, row, lines[i]);
  }

  method ShowLines(lines: seq<ManifestLine>, f: Find) returns (shown: seq<seq<O.MatchRun>>)
    requires f.Valid() && AllSpelled(lines) && NoNewlines(Texts(lines))
    ensures |shown| == |lines| && AllPainted(shown) == LineGlyphs(lines) && RowsSpell(shown, Texts(lines))
    ensures RowHits(shown) == HitsInLines(Texts(lines), f)
  {
    shown := [];
    for i := 0 to |lines|
      invariant RowsAt(lines, f, i, shown)
    {
      assert IsSpelled(lines[i]) && '\n' !in Texts(lines)[i];
      var row := ShowLine(lines[i], f);
      RowsAtNext(lines, f, i, shown, row);
      shown := shown + [row];
    }
    assert Texts(lines)[..|lines|] == Texts(lines) && lines[..|lines|] == lines;
  }

  /** Above this size a manifest is shown without colours. */
  const SyntaxMax := 200000

  function PlainLine(text: string): ManifestLine {
    ManifestLine(text, [Token(text, PlainTok)])
  }

  lemma PlainIsSpelled(text: string)
    ensures IsSpelled(PlainLine(text)) && TokenGlyphs(PlainLine(text).tokens) == Glyphs(text, PlainTok)
  {
    TextPush([], Token(text, PlainTok));
    TokenGlyphsPush([], Token(text, PlainTok));
    assert [] + [Token(text, PlainTok)] == [Token(text, PlainTok)];
  }

  lemma PlainGlyphsNext(texts: seq<string>, i: nat)
    requires i < |texts|
    ensures PlainGlyphs(texts[..i + 1]) == PlainGlyphs(texts[..i]) + Glyphs(texts[i], PlainTok)
  {
    assert texts[..i + 1][..i] == texts[..i];
  }

  function PlainGlyphs(texts: seq<string>): seq<Glyph> {
    if texts == [] then [] else PlainGlyphs(texts[..|texts| - 1]) + Glyphs(texts[|texts| - 1], PlainTok)
  }

  lemma {:induction false} JoinGlyphs(texts: seq<string>)
    requires texts != []
    ensures PlainGlyphs(texts) == Glyphs(Join(texts), PlainTok)
  {
    var last := |texts| - 1;
    if last > 0 {
      JoinGlyphs(texts[..last]);
      GlyphsOfBoth(Join(texts[..last]), "\n", PlainTok);
      GlyphsOfBoth(Join(texts[..last]) + "\n", texts[last], PlainTok);
    }
  }

  lemma LineGlyphsPush(lines: seq<ManifestLine>, line: ManifestLine)
    ensures LineGlyphs(lines + [line]) == LineGlyphs(lines) + TokenGlyphs(line.tokens)
  {
    assert (lines + [line])[..|lines|] == lines;
  }

  ghost predicate PlainAt(texts: seq<string>, i: nat, lines: seq<ManifestLine>)
    requires i <= |texts|
  {
    && |lines| == i && AllSpelled(lines) && LineGlyphs(lines) == PlainGlyphs(texts[..i])
    && forall k :: 0 <= k < i ==> lines[k].text == texts[k]
  }

  lemma PlainAtNext(texts: seq<string>, i: nat, lines: seq<ManifestLine>)
    requires i < |texts| && PlainAt(texts, i, lines)
    ensures PlainAt(texts, i + 1, lines + [PlainLine(texts[i])])
  {
    PlainIsSpelled(texts[i]);
    PlainGlyphsNext(texts, i);
    LineGlyphsPush(lines, PlainLine(texts[i]));
    var more := lines + [PlainLine(texts[i])];
    forall k | 0 <= k < |more| ensures IsSpelled(more[k]) {
      assert k < i ==> more[k] == lines[k] && IsSpelled(lines[k]);
    }
  }

  method PlainLines(texts: seq<string>) returns (lines: seq<ManifestLine>)
    ensures AllSpelled(lines) && Texts(lines) == texts && LineGlyphs(lines) == PlainGlyphs(texts)
  {
    lines := [];
    for i := 0 to |texts|
      invariant PlainAt(texts, i, lines)
    {
      PlainAtNext(texts, i, lines);
      lines := lines + [PlainLine(texts[i])];
    }
    assert texts[..|texts|] == texts;
  }

  lemma WholeIsSpelled(lines: seq<ManifestLine>)
    requires AllWhole(lines)
    ensures AllSpelled(lines)
  {
    forall i | 0 <= i < |lines| ensures IsSpelled(lines[i]) {
      assert LineIsWhole(lines[i]);
    }
  }

  /** The characters that are shown, newlines left out, each in its colour. */
  ghost predicate Coloured(text: string, format: Format, shown: seq<Glyph>) {
    if |text| == 0 then shown == []
    else if |text| > 200000 then shown == Glyphs(text, PlainTok)
    else exists tokens :: AreTokensOf(tokens, text, format) && shown == TokenGlyphs(tokens)
  }

  method LinesOf(text: string, format: Format) returns (lines: seq<ManifestLine>)
    ensures AllSpelled(lines) && Texts(lines) == if |text| == 0 then [] else Lines(text)
    ensures Coloured(text, format, LineGlyphs(lines))
  {
    if |text| == 0 {
      return [];
    }
    if |text| > SyntaxMax {
      JoinGlyphs(Lines(text));
      lines := PlainLines(Lines(text));
    } else {
      var tokens;
      lines, tokens := SplitManifestLines(text, format);
      WholeLinesAreLines(lines, text);
      WholeIsSpelled(lines);
    }
  }

  datatype Row = Row(line: nat, foldable: bool, collapsed: bool, hidden: bool, hiddenCount: nat,
                     runs: seq<O.MatchRun>, matchIndexes: seq<int>)

  /** A hit's index is the number of hits before it, in its row and in the rows above. */
  ghost predicate IndexedFrom(runs: seq<O.MatchRun>, first: nat, indexes: seq<int>) {
    && |indexes| <= |runs|
    && forall k :: 0 <= k < |indexes| ==> indexes[k] == if runs[k].hit then first + OverlayHits(runs[..k]) else -1
  }

  method IndexRuns(runs: seq<O.MatchRun>, first: nat) returns (indexes: seq<int>, next: nat)
    ensures |indexes| == |runs| && IndexedFrom(runs, first, indexes) && next == first + OverlayHits(runs)
  {
    indexes, next := [], first;
    for k := 0 to |runs|
      invariant |indexes| == k && IndexedFrom(runs, first, indexes) && next == first + OverlayHits(runs[..k])
    {
      assert runs[..k + 1][..k] == runs[..k];
      indexes := indexes + [if runs[k].hit then next else -1];
      next := if runs[k].hit then next + 1 else next;
    }
    assert runs[..|runs|] == runs;
  }

  /** Row `i` folds, is collapsed and is hidden as the folds of all lines say. */
  ghost predicate FoldsAs(metas: seq<LineMeta>, folded: set<nat>, row: Row, i: nat) {
    && row.line == i && (row.collapsed <==> row.foldable && i in folded)
    && (if row.foldable then IsFold(metas, i, i + row.hiddenCount)
        else row.hiddenCount == 0 && forall end: nat :: !IsFold(metas, i, end))
    && (row.hidden <==> Covered(metas, folded, i, i))
  }

  ghost predicate RowIsRight(metas: seq<LineMeta>, folded: set<nat>, shown: seq<seq<O.MatchRun>>, row: Row, i: nat)
    requires i < |shown|
  {
    && FoldsAs(metas, folded, row, i)
    && row.runs == shown[i] && |row.matchIndexes| == |row.runs|
    && IndexedFrom(shown[i], RowHits(shown[..i]), row.matchIndexes)
  }

  ghost predicate RowsAreRight(metas: seq<LineMeta>, folded: set<nat>, shown: seq<seq<O.MatchRun>>, rows: seq<Row>) {
    |rows| <= |shown| && forall i :: 0 <= i < |rows| ==> RowIsRight(metas, folded, shown, rows[i], i)
  }

  method AssembleRows(metas: seq<LineMeta>, ends: map<nat, nat>, folded: set<nat>, shown: seq<seq<O.MatchRun>>)
    returns (rows: seq<Row>)
    requires FoldMap(metas, ends) && |shown| == |metas|
    ensures |rows| == |shown| && RowsAreRight(metas, folded, shown, rows)
  {
    rows := [];
    var hidden := HiddenRows(metas, ends, folded);
    var next := 0;
    for i := 0 to |shown|
      invariant |rows| == i && RowsAreRight(metas, folded, shown, rows) && next == RowHits(shown[..i])
    {
      var foldable := i in ends;
      var first, indexes := next, [];
      indexes, next := IndexRuns(shown[i], first);
      assert foldable ==> IsFold(metas, i, ends[i]);
      var row := Row(i, foldable, foldable && i in folded, hidden[i], if foldable then ends[i] - i else 0,
                     shown[i], indexes);
      assert shown[..i + 1][..i] == shown[..i];
      assert RowIsRight(metas, folded, shown, row, i);
      rows := rows + [row];
    }
  }

  /** The lines of a text that is shown. */
  function ShownLines(text: string): (lines: seq<string>)
    ensures NoNewlines(lines)
  {
    if |text| == 0 then [] else Lines(text)
  }

  /** The rows of a manifest: its lines in their colours, the hits of the query numbered through, folded rows hidden
      unless there is a query; and the number of hits in the whole text, which is that of the rows exactly when as many
      occurrences lie beyond the text as lie beyond its lines. */
  method Rows(text: string, format: Format, f: Find, collapsed: set<nat>)
    returns (rows: seq<Row>, total: nat, ghost shown: seq<seq<O.MatchRun>>)
    requires f.Valid()
    ensures |rows| == |shown| == |ShownLines(text)| && RowsSpell(shown, ShownLines(text))
    ensures Coloured(text, format, AllPainted(shown))
    ensures RowsAreRight(MetasOf(ShownLines(text)), if |f.query| == 0 then collapsed else {}, shown, rows)
    ensures RowHits(shown) == HitsInLines(ShownLines(text), f)
    ensures total == HitsIn(text, f)
    ensures |text| > 0 && LowersByLine(f, Lines(text)) ==>
              (total == RowHits(shown) <==> BeyondIn(text, f) == BeyondInLines(Lines(text), f))
  {
    var lines := LinesOf(text, format);
    assert Texts(lines) == ShownLines(text);
    var regions := ComputeFolds(Texts(lines));
    var ends := FoldByHeader(MetasOf(Texts(lines)), regions);
    var runs := ShowLines(lines, f);
    rows := AssembleRows(MetasOf(Texts(lines)), ends, if |f.query| == 0 then collapsed else {}, runs);
    total := CountHits(text, f);
    shown := runs;
    if |text| > 0 && LowersByLine(f, Lines(text)) {
      WholeTextCountIffBeyond(Lines(text), f);
    }
  }

  method CountHits(text: string, f: Find) returns (total: nat)
    requires f.Valid()
    ensures total == HitsIn(text, f)
  {
    total := 0;
    if |f.query| > 0 {
      var whole := FindHits(text, f);
      total := Hits(whole);
    }
  }
}
