/** web/src/manifestSyntax.ts, splitManifestLines: the token stream regrouped into one entry per source line. */
module ManifestLines {
  import opened ManifestTokens
  import opened TextLines
  import J = JsonTokens
  import Y = YamlTokens

  datatype Format = Yaml | Json
  datatype ManifestLine = ManifestLine(text: string, tokens: seq<Token>)

  /** A text as it is shown: newlines are not, they are what separates the lines. */
  function Glyphs(s: string, typ: TokType): seq<Glyph> {
    if s == "" then []
    else
      var last := s[|s| - 1];
      Glyphs(s[..|s| - 1], typ) + (if last == '\n' then [] else [Glyph(last, typ)])
  }

  lemma {:induction false} GlyphsOfBoth(a: string, b: string, typ: TokType)
    ensures Glyphs(a + b, typ) == Glyphs(a, typ) + Glyphs(b, typ)
  {
    if b == "" {
      assert a + b == a;
    } else {
      assert (a + b)[..|a + b| - 1] == a + b[..|b| - 1];
      GlyphsOfBoth(a, b[..|b| - 1], typ);
    }
  }

  function TokenGlyphs(tokens: seq<Token>): seq<Glyph> {
    if tokens == [] then []
    else TokenGlyphs(tokens[..|tokens| - 1]) + Glyphs(tokens[|tokens| - 1].text, tokens[|tokens| - 1].typ)
  }

  lemma TokenGlyphsPush(tokens: seq<Token>, tok: Token)
    ensures TokenGlyphs(tokens + [tok]) == TokenGlyphs(tokens) + Glyphs(tok.text, tok.typ)
  {
    assert (tokens + [tok])[..|tokens|] == tokens;
  }

  function LineGlyphs(lines: seq<ManifestLine>): seq<Glyph> {
    if lines == [] then [] else LineGlyphs(lines[..|lines| - 1]) + TokenGlyphs(lines[|lines| - 1].tokens)
  }

  function Texts(lines: seq<ManifestLine>): (texts: seq<string>)
    ensures |texts| == |lines| && forall i :: 0 <= i < |lines| ==> texts[i] == lines[i].text
  {
    seq(|lines|, i requires 0 <= i < |lines| => lines[i].text)
  }

  ghost predicate LineIsWhole(l: ManifestLine) {
    '\n' !in l.text && Text(l.tokens) == l.text && NoneEmpty(l.tokens)
  }

  ghost predicate AllWhole(lines: seq<ManifestLine>) {
    lines != [] && forall i :: 0 <= i < |lines| ==> LineIsWhole(lines[i])
  }

  /** The lines spell `text` and show `glyphs`. */
  ghost predicate Regrouped(lines: seq<ManifestLine>, text: string, glyphs: seq<Glyph>) {
    AllWhole(lines) && Join(Texts(lines)) == text && LineGlyphs(lines) == glyphs
  }

  function Started(lines: seq<ManifestLine>): seq<ManifestLine> {
    lines + [ManifestLine("", [])]
  }

  function Extended(lines: seq<ManifestLine>, part: string, typ: TokType): seq<ManifestLine>
    requires lines != []
  {
    if part == "" then lines
    else
      var cur := lines[|lines| - 1];
      lines[..|lines| - 1] + [ManifestLine(cur.text + part, cur.tokens + [Token(part, typ)])]
  }

  lemma StartLine(lines: seq<ManifestLine>, text: string, glyphs: seq<Glyph>)
    requires Regrouped(lines, text, glyphs)
    ensures Regrouped(Started(lines), text + "\n", glyphs)
  {
    var more := Started(lines);
    assert more[..|lines|] == lines && Texts(more)[..|lines|] == Texts(lines);
    assert LineIsWhole(ManifestLine("", []));
    assert LineGlyphs(more) == LineGlyphs(lines) + [];
  }

  lemma ExtendLine(lines: seq<ManifestLine>, part: string, typ: TokType, text: string, glyphs: seq<Glyph>)
    requires Regrouped(lines, text, glyphs) && '\n' !in part
    ensures Regrouped(Extended(lines, part, typ), text + part, glyphs + Glyphs(part, typ))
  {
    if part != "" {
      ExtendedIsWhole(lines, part, typ);
      ExtendedJoins(lines, part, typ);
      ExtendedShows(lines, part, typ);
    } else {
      assert text + part == text && glyphs + [] == glyphs;
    }
  }

  lemma ExtendedIsWhole(lines: seq<ManifestLine>, part: string, typ: TokType)
    requires AllWhole(lines) && part != "" && '\n' !in part
    ensures AllWhole(Extended(lines, part, typ))
  {
    var cur, more := lines[|lines| - 1], Extended(lines, part, typ);
    TextPush(cur.tokens, Token(part, typ));
    assert LineIsWhole(cur);
    forall i | 0 <= i < |more| ensures LineIsWhole(more[i]) {
      assert i < |lines| - 1 ==> more[i] == lines[i] && LineIsWhole(lines[i]);
    }
  }

  lemma ExtendedJoins(lines: seq<ManifestLine>, part: string, typ: TokType)
    requires lines != [] && part != ""
    ensures Join(Texts(Extended(lines, part, typ))) == Join(Texts(lines)) + part
  {
    var init, cur := lines[..|lines| - 1], lines[|lines| - 1];
    assert Texts(Extended(lines, part, typ)) == Texts(init) + [cur.text + part] &&
           Texts(lines) == Texts(init) + [cur.text];
    JoinWithLast(Texts(init), cur.text, part);
  }

  lemma ExtendedShows(lines: seq<ManifestLine>, part: string, typ: TokType)
    requires lines != [] && part != ""
    ensures LineGlyphs(Extended(lines, part, typ)) == LineGlyphs(lines) + Glyphs(part, typ)
  {
    var init, cur, more := lines[..|lines| - 1], lines[|lines| - 1], Extended(lines, part, typ);
    TokenGlyphsPush(cur.tokens, Token(part, typ));
    assert more[..|init|] == init;
  }

  /** What the parts of a token read so far spell. */
  function PartsText(parts: seq<string>, p: nat): string
    requires p <= |parts|
  {
    if p == 0 then "" else Join(parts[..p])
  }

  lemma PartsTextNext(parts: seq<string>, p: nat)
    requires p < |parts|
    ensures PartsText(parts, p + 1) == PartsText(parts, p) + (if p > 0 then "\n" else "") + parts[p]
  {
    assert parts[..p + 1][..p] == parts[..p];
  }

  lemma PartGlyphs(parts: seq<string>, p: nat, typ: TokType)
    requires p < |parts|
    ensures Glyphs(PartsText(parts, p + 1), typ) == Glyphs(PartsText(parts, p), typ) + Glyphs(parts[p], typ)
  {
    PartsTextNext(parts, p);
    var nl := if p > 0 then "\n" else "";
    GlyphsOfBoth(PartsText(parts, p), nl, typ);
    GlyphsOfBoth(PartsText(parts, p) + nl, parts[p], typ);
  }

  /** One part of a token; every part but the first starts a new line. */
  method AddPart(lines0: seq<ManifestLine>, part: string, typ: TokType, first: bool, ghost text: string,
                 ghost glyphs: seq<Glyph>)
    returns (lines: seq<ManifestLine>)
    requires Regrouped(lines0, text, glyphs) && '\n' !in part
    ensures Regrouped(lines, text + (if first then "" else "\n") + part, glyphs + Glyphs(part, typ))
  {
    lines := lines0;
    ghost var t := text + (if first then "" else "\n");
    assert first ==> t == text;
    if !first {
      StartLine(lines0, text, glyphs);
      lines := lines0 + [ManifestLine("", [])];
    }
    ExtendLine(lines, part, typ, t, glyphs);
    if part != "" {
      var cur := lines[|lines| - 1];
      lines := lines[..|lines| - 1] + [ManifestLine(cur.text + part, cur.tokens + [Token(part, typ)])];
    }
  }

  /** What lines and glyphs amount to after `p` parts of a token. */
  ghost predicate PartWay(parts: seq<string>, p: nat, typ: TokType, text: string, glyphs: seq<Glyph>, t: string,
                          g: seq<Glyph>)
    requires p <= |parts|
  {
    t == text + PartsText(parts, p) && g == glyphs + Glyphs(PartsText(parts, p), typ)
  }

  lemma PartWayOn(parts: seq<string>, p: nat, typ: TokType, text: string, glyphs: seq<Glyph>, t: string, g: seq<Glyph>)
    requires p < |parts| && PartWay(parts, p, typ, text, glyphs, t, g)
    ensures PartWay(parts, p + 1, typ, text, glyphs,
                    t + (if p == 0 then "" else "\n") + parts[p], g + Glyphs(parts[p], typ))
  {
    PartsTextNext(parts, p);
    PartGlyphs(parts, p, typ);
    Regroup3(text, PartsText(parts, p), if p == 0 then "" else "\n", parts[p]);
    Regroup2(glyphs, Glyphs(PartsText(parts, p), typ), Glyphs(parts[p], typ));
  }

  lemma Regroup2<T>(a: seq<T>, b: seq<T>, c: seq<T>)
    ensures a + (b + c) == a + b + c
  {
  }

  lemma Regroup3<T>(a: seq<T>, b: seq<T>, c: seq<T>, d: seq<T>)
    ensures a + (b + c + d) == a + b + c + d
  {
  }

  method AddToken(lines0: seq<ManifestLine>, tok: Token, ghost text: string, ghost glyphs: seq<Glyph>)
    returns (lines: seq<ManifestLine>)
    requires Regrouped(lines0, text, glyphs)
    ensures Regrouped(lines, text + tok.text, glyphs + Glyphs(tok.text, tok.typ))
  {
    var parts := Lines(tok.text);
    lines := lines0;
    ghost var t, g := text, glyphs;
    assert text + "" == text && glyphs + [] == glyphs;
    for p := 0 to |parts|
      invariant Regrouped(lines, t, g)
      invariant PartWay(parts, p, tok.typ, text, glyphs, t, g)
    {
      lines := AddPart(lines, parts[p], tok.typ, p == 0, t, g);
      PartWayOn(parts, p, tok.typ, text, glyphs, t, g);
      t, g := t + (if p == 0 then "" else "\n") + parts[p], g + Glyphs(parts[p], tok.typ);
    }
    assert parts[..|parts|] == parts;
  }

  /** The tokens of a text in its format. */
  ghost predicate AreTokensOf(tokens: seq<Token>, text: string, format: Format) {
    match format
    case Json => J.AreTokensOf(tokens, text)
    case Yaml => tokens == Y.DocTokens(Lines(text))
  }

  lemma TokensAreUnique(a: seq<Token>, b: seq<Token>, text: string, format: Format)
    requires AreTokensOf(a, text, format) && AreTokensOf(b, text, format)
    ensures a == b
  {
    if format == Json {
      J.ScanIsUnique(text, a, b);
    }
  }

  method TokenizeManifest(text: string, format: Format) returns (tokens: seq<Token>)
    ensures Text(tokens) == text && NoneEmpty(tokens) && AreTokensOf(tokens, text, format)
  {
    if format == Json {
      tokens := J.TokenizeJson(text);
    } else {
      tokens := Y.TokenizeYaml(text);
    }
  }

  method Regroup(tokens: seq<Token>) returns (lines: seq<ManifestLine>)
    ensures Regrouped(lines, Text(tokens), TokenGlyphs(tokens))
  {
    lines := [ManifestLine("", [])];
    assert LineIsWhole(lines[0]);
    assert Texts(lines)[0] == "" && lines[..0] == [];
    for i := 0 to |tokens|
      invariant Regrouped(lines, Text(tokens[..i]), TokenGlyphs(tokens[..i]))
    {
      lines := AddToken(lines, tokens[i], Text(tokens[..i]), TokenGlyphs(tokens[..i]));
      assert tokens[..i + 1] == tokens[..i] + [tokens[i]];
      TextPush(tokens[..i], tokens[i]);
      TokenGlyphsPush(tokens[..i], tokens[i]);
    }
    assert tokens[..|tokens|] == tokens;
  }

  /** One entry per line of the input, each character with the type its token had. */
  method SplitManifestLines(text: string, format: Format) returns (lines: seq<ManifestLine>, tokens: seq<Token>)
    ensures Text(tokens) == text && AreTokensOf(tokens, text, format)
    ensures AllWhole(lines) && Join(Texts(lines)) == text
    ensures LineGlyphs(lines) == TokenGlyphs(tokens)
  {
    tokens := TokenizeManifest(text, format);
    lines := Regroup(tokens);
  }

  /** Whole lines that join to a text are the text's lines, each once and in order. */
  lemma WholeLinesAreLines(lines: seq<ManifestLine>, text: string)
    requires AllWhole(lines) && Join(Texts(lines)) == text
    ensures Texts(lines) == Lines(text)
  {
    forall i | 0 <= i < |lines| ensures '\n' !in Texts(lines)[i] {
      assert LineIsWhole(lines[i]);
    }
    LinesAreTheOnlySplit(Texts(lines), Lines(text));
  }
}
