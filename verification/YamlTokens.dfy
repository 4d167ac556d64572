/** web/src/manifestSyntax.ts, tokenizeYaml: the line scanner, and the block scalars it carries from line to line. */
module YamlTokens {
  import opened Prelude
  import opened ManifestTokens
  import opened TextLines
  import opened YamlBlocks

  /** White space and line terminators as String.prototype.trim removes them. */
  predicate IsBlankChar(c: char) {
    || c in ['\t', '\n', '\U{b}', '\U{c}', '\r', ' ', '\U{a0}', '\U{1680}', '\U{2028}', '\U{2029}', '\U{202f}',
      '\U{205f}']
    || c in ['\U{3000}', '\U{feff}'] || '\U{2000}' <= c <= '\U{200a}'
  }

  predicate IsBlank(line: string) {
    forall c :: c in line ==> IsBlankChar(c)
  }

  predicate AllDigits(s: string) {
    Digits(s) == |s|
  }

  /** A block scalar indicator: '|' or '>', an optional chomping sign, an optional indent. */
  predicate IsBlockIndicator(t: string) {
    && t != "" && (t[0] == '|' || t[0] == '>')
    && AllDigits(if |t| > 1 && (t[1] == '+' || t[1] == '-') then t[2..] else t[1..])
  }

  // ---- the colon between a key and its value ----

  /** The quote open right before `i`, if any. */
  function QuoteAt(s: string, i: nat): Option<char>
    requires i <= |s|
  {
    if i == 0 then None
    else
      var c := s[i - 1];
      match QuoteAt(s, i - 1)
      case Some(quote) => if c == quote then None else Some(quote)
      case None => if c == '"' || c == '\'' then Some(c) else None
  }

  predicate IsKeyColon(s: string, i: nat)
    requires i < |s|
  {
    s[i] == ':' && (i + 1 == |s| || s[i + 1] == ' ') && QuoteAt(s, i) == None
  }

  method FindKeyColon(s: string) returns (at: int)
    ensures -1 <= at < |s|
    ensures at >= 0 ==> IsKeyColon(s, at) && forall k :: 0 <= k < at ==> !IsKeyColon(s, k)
    ensures at < 0 ==> forall k :: 0 <= k < |s| ==> !IsKeyColon(s, k)
  {
    var quote: Option<char> := None;
    for i := 0 to |s|
      invariant quote == QuoteAt(s, i)
      invariant forall k :: 0 <= k < i ==> !IsKeyColon(s, k)
    {
      var c := s[i];
      if quote.Some? {
        if c == quote.value {
          quote := None;
        }
        continue;
      }
      if c == '"' || c == '\'' {
        quote := Some(c);
      } else if c == ':' && (i + 1 >= |s| || s[i + 1] == ' ') {
        return i;
      }
    }
    return -1;
  }

  /** Just past the quote that closes a value starting with one; only double quotes know escapes. */
  method QuotedEnd(t: string) returns (end: nat)
    requires t != ""
    ensures 0 < end <= |t| && QuoteEndsAt(t, 1, end, t[0])
  {
    var quote := t[0];
    var i := 1;
    while i < |t|
      invariant 1 <= i <= |t| + 1
      invariant quote == '"' && i <= |t| ==> Backslashes(t, 1, i) % 2 == 0
      invariant forall p :: 1 <= p < i && p < |t| ==> !Closes(t, 1, p, quote)
    {
      if quote == '"' && t[i] == '\\' {
        i := i + 2;
        continue;
      }
      if t[i] == quote {
        return i + 1;
      }
      i := i + 1;
    }
    return |t|;
  }

  // ---- the tokens of a line, part by part ----

  /** What a scalar that is not quoted is shown as. */
  function ScalarType(t: string): TokType {
    if IsBlockIndicator(t) || t == "{}" || t == "[]" then PunctTok
    else if IsNumber(t) then NumberTok
    else if IsKeyword(t) || t == "~" then KeywordTok
    else StringTok
  }

  predicate StartsQuoted(t: string) {
    |t| > 0 && (t[0] == '"' || t[0] == '\'')
  }

  /** Just past the first quote from `p` on that closes `t`, or its end. */
  function QuoteEnd(t: string, p: nat): (end: nat)
    requires 1 <= p <= |t|
    ensures p <= end <= |t|
    decreases |t| - p
  {
    if p == |t| then p else if Closes(t, 1, p, t[0]) then p + 1 else QuoteEnd(t, p + 1)
  }

  /** A quoted string and what follows it. */
  function QuotedTokens(t: string): seq<Token>
    requires |t| > 0
  {
    var end := QuoteEnd(t, 1);
    [Token(t[..end], StringTok)] + if end < |t| then [Token(t[end..], PlainTok)] else []
  }

  function ScalarTokens(t: string): seq<Token> {
    if |t| == 0 then [] else if StartsQuoted(t) then QuotedTokens(t) else [Token(t, ScalarType(t))]
  }

  function IndentTokens(s: string): seq<Token> {
    if LeadingSpaces(s) > 0 then [Token(s[..LeadingSpaces(s)], PlainTok)] else []
  }

  /** The value without the spaces in front of it. */
  function Scalar(v: string): string {
    v[LeadingSpaces(v)..]
  }

  function ValueTokens(v: string): seq<Token> {
    IndentTokens(v) + ScalarTokens(Scalar(v))
  }

  /** The first key colon from `i` on. */
  function ColonFrom(s: string, i: nat): (at: int)
    requires i <= |s|
    ensures at < 0 ==> forall k :: i <= k < |s| ==> !IsKeyColon(s, k)
    ensures at >= 0 ==> i <= at < |s| && IsKeyColon(s, at) && forall k :: i <= k < at ==> !IsKeyColon(s, k)
    decreases |s| - i
  {
    if i == |s| then -1 else if IsKeyColon(s, i) then i else ColonFrom(s, i + 1)
  }

  /** The key of an entry and its colon. */
  function KeyTokens(entry: string): seq<Token> {
    var at := ColonFrom(entry, 0);
    if at < 0 then []
    else (if at > 0 then [Token(entry[..at], KeyTok)] else []) + [Token(entry[at..at + 1], PunctTok)]
  }

  function ValueOf(entry: string): string {
    var at := ColonFrom(entry, 0);
    if at < 0 then entry else entry[at + 1..]
  }

  function EntryTokens(entry: string): seq<Token> {
    KeyTokens(entry) + ValueTokens(ValueOf(entry))
  }

  /** How long a sequence marker at the start is: a dash and a space, or a dash alone. */
  function MarkerLength(rest: string): (n: nat)
    ensures n <= |rest|
  {
    if |rest| == 0 || rest[0] != '-' then 0
    else if |rest| == 1 then 1
    else if rest[1] == ' ' then 2
    else 0
  }

  /** The sequence markers in front of an entry, stacked ones included. */
  function MarkerTokens(rest: string): seq<Token> {
    var n := MarkerLength(rest);
    if n == 0 then [] else [Token(rest[..n], PunctTok)] + MarkerTokens(rest[n..])
  }

  /** What stands behind them. */
  function BehindMarkers(rest: string): string {
    var n := MarkerLength(rest);
    if n == 0 then rest else BehindMarkers(rest[n..])
  }

  function ContentTokens(content: string): seq<Token> {
    MarkerTokens(content) + EntryTokens(BehindMarkers(content))
  }

  function LineTokens(line: string): seq<Token> {
    IndentTokens(line) + ContentTokens(Scalar(line))
  }

  predicate EntryOpens(entry: string) {
    IsBlockIndicator(Scalar(ValueOf(entry)))
  }

  /** The indent of a line that opens a block scalar. */
  function LineOpens(line: string): Option<nat> {
    if EntryOpens(BehindMarkers(Scalar(line))) then Some(LeadingSpaces(line)) else None
  }

  // ---- they spell the line ----

  /** Nonempty tokens that give back `s`. */
  ghost predicate Spells(tokens: seq<Token>, s: string) {
    Text(tokens) == s && NoneEmpty(tokens)
  }

  lemma SpellsBoth(a: seq<Token>, b: seq<Token>, s: string, t: string)
    requires Spells(a, s) && Spells(b, t)
    ensures Spells(a + b, s + t)
  {
    TextOfBoth(a, b);
  }

  lemma SpellsOne(tok: Token)
    requires |tok.text| > 0
    ensures Spells([tok], tok.text)
  {
    TextPush([], tok);
    assert [] + [tok] == [tok];
  }

  lemma IndentSpells(s: string)
    ensures Spells(IndentTokens(s), s[..LeadingSpaces(s)])
    ensures s == s[..LeadingSpaces(s)] + Scalar(s)
  {
    var n := LeadingSpaces(s);
    assert s == s[..n] + s[n..];
    if n > 0 {
      SpellsOne(Token(s[..n], PlainTok));
    } else {
      assert s[..n] == [];
    }
  }

  lemma QuotedSpells(t: string)
    requires |t| > 0
    ensures Spells(QuotedTokens(t), t)
  {
    var end := QuoteEnd(t, 1);
    assert t == t[..end] + t[end..];
    SpellsOne(Token(t[..end], StringTok));
    if end < |t| {
      SpellsOne(Token(t[end..], PlainTok));
      SpellsBoth([Token(t[..end], StringTok)], [Token(t[end..], PlainTok)], t[..end], t[end..]);
    }
  }

  lemma ValueSpells(v: string)
    ensures Spells(ValueTokens(v), v)
  {
    var t := Scalar(v);
    IndentSpells(v);
    if StartsQuoted(t) {
      QuotedSpells(t);
    } else if |t| > 0 {
      SpellsOne(Token(t, ScalarType(t)));
    }
    SpellsBoth(IndentTokens(v), ScalarTokens(t), v[..LeadingSpaces(v)], t);
  }

  lemma SpellsTwo(a: Token, b: Token)
    requires |a.text| > 0 && |b.text| > 0
    ensures Spells([a] + [b], a.text + b.text)
  {
    SpellsOne(a);
    SpellsOne(b);
    SpellsBoth([a], [b], a.text, b.text);
  }

  lemma KeySpells(entry: string)
    requires ColonFrom(entry, 0) >= 0
    ensures Spells(KeyTokens(entry), entry[..ColonFrom(entry, 0) + 1])
  {
    var at: nat := ColonFrom(entry, 0);
    var key, colon := entry[..at], entry[at..at + 1];
    assert key + colon == entry[..at + 1];
    if at > 0 {
      SpellsTwo(Token(key, KeyTok), Token(colon, PunctTok));
    } else {
      SpellsOne(Token(colon, PunctTok));
      assert [] + [Token(colon, PunctTok)] == [Token(colon, PunctTok)];
      assert colon == entry[..at + 1];
    }
  }

  lemma EntrySpells(entry: string)
    ensures Spells(EntryTokens(entry), entry)
  {
    var at, value := ColonFrom(entry, 0), ValueOf(entry);
    ValueSpells(value);
    if at >= 0 {
      KeySpells(entry);
      SpellsBoth(KeyTokens(entry), ValueTokens(value), entry[..at + 1], value);
      assert entry == entry[..at + 1] + value;
    } else {
      assert [] + ValueTokens(value) == ValueTokens(value);
    }
  }

  lemma {:induction false} ContentSpells(content: string)
    ensures Spells(ContentTokens(content), content)
    decreases |content|
  {
    var n := MarkerLength(content);
    if n == 0 {
      EntrySpells(content);
      assert [] + EntryTokens(content) == EntryTokens(content);
    } else {
      var marker, rest := Token(content[..n], PunctTok), content[n..];
      SpellsOne(marker);
      ContentSpells(rest);
      SpellsBoth([marker], ContentTokens(rest), content[..n], rest);
      assert content == content[..n] + rest;
      Assoc([marker], MarkerTokens(rest), EntryTokens(BehindMarkers(rest)));
    }
  }

  lemma Assoc<T>(a: seq<T>, b: seq<T>, c: seq<T>)
    ensures a + b + c == a + (b + c)
  {
  }

  lemma LineSpells(line: string)
    ensures Spells(LineTokens(line), line)
  {
    IndentSpells(line);
    ContentSpells(Scalar(line));
    SpellsBoth(IndentTokens(line), ContentTokens(Scalar(line)), line[..LeadingSpaces(line)], Scalar(line));
  }

  /** A line that opens a block scalar ends in the indicator, shown as a mark. */
  lemma OpenerIsShown(line: string)
    requires LineOpens(line).Some?
    ensures
      var tokens, entry := LineTokens(line), BehindMarkers(Scalar(line));
      |tokens| > 0 && tokens[|tokens| - 1] == Token(Scalar(ValueOf(entry)), PunctTok)
  {
    var t := Scalar(ValueOf(BehindMarkers(Scalar(line))));
    assert ScalarTokens(t) == [Token(t, PunctTok)];
  }

  // ---- what is shown, on the text ----

  /** An unquoted scalar: the four words are keywords, numbers are numbers, empty collections and block indicators are
      marks, and what begins with another character than those do is a string. */
  lemma ScalarOnText(t: string)
    requires |t| > 0 && !StartsQuoted(t)
    ensures t == "true" || t == "false" || t == "null" || t == "~" ==> ScalarTokens(t) == [Token(t, KeywordTok)]
    ensures IsWhole(t) ==> ScalarTokens(t) == [Token(t, NumberTok)]
    ensures t == "{}" || t == "[]" || t == "|" || t == ">" || t == "|-" || t == ">+" ==>
              ScalarTokens(t) == [Token(t, PunctTok)]
    ensures IsPlainStart(t[0]) && !IsKeyword(t) ==> ScalarTokens(t) == [Token(t, StringTok)]
  {
    if IsWhole(t) {
      WholesAreNumbers(t, t);
    }
    if IsPlainStart(t[0]) {
      OthersAreNoNumbers(t);
    }
  }

  predicate IsPlainStart(c: char) {
    c != '-' && !('0' <= c <= '9') && c != '|' && c != '>' && c != '{' && c != '[' && c != '~'
  }

  /** Spaces, tabs and carriage returns alone are blank; a printed character is not. */
  lemma BlankOnText(line: string)
    ensures (forall c :: c in line ==> c == ' ' || c == '\t' || c == '\r') ==> IsBlank(line)
    ensures (exists c :: c in line && '!' <= c <= '~') ==> !IsBlank(line)
  {
  }

  ghost predicate NoQuotes(s: string) {
    forall i :: 0 <= i < |s| ==> s[i] != '"' && s[i] != '\''
  }

  lemma {:induction false} NoQuoteOpen(s: string, i: nat)
    requires i <= |s| && forall k :: 0 <= k < i ==> s[k] != '"' && s[k] != '\''
    ensures QuoteAt(s, i) == None
  {
    if i > 0 {
      NoQuoteOpen(s, i - 1);
    }
  }

  lemma {:induction false} FirstColonAt(s: string, i: nat, at: nat)
    requires i <= at < |s| && IsKeyColon(s, at) && forall k :: i <= k < at ==> !IsKeyColon(s, k)
    ensures ColonFrom(s, i) == at
    decreases at - i
  {
    if i < at {
      FirstColonAt(s, i + 1, at);
    }
  }

  /** A key and its colon, before a space or the end, are shown as such. */
  lemma KeyOnText(key: string, value: string)
    requires |key| > 0 && NoQuotes(key) && ':' !in key && (|value| == 0 || value[0] == ' ')
    ensures EntryTokens(key + [':'] + value) == [Token(key, KeyTok), Token([':'], PunctTok)] + ValueTokens(value)
  {
    var entry := key + [':'] + value;
    NoQuoteOpen(entry, |key|);
    assert forall k :: 0 <= k < |key| ==> entry[k] == key[k];
    FirstColonAt(entry, 0, |key|);
    assert entry[..|key|] == key && entry[|key|..|key| + 1] == [':'] && entry[|key| + 1..] == value;
    assert KeyTokens(entry) == [Token(key, KeyTok), Token([':'], PunctTok)];
  }

  /** A colon with something else behind it, as in an image or an address, makes no key, and the whole is the value. */
  lemma InnerColonIsNoKey(entry: string)
    requires forall k :: 0 <= k < |entry| && entry[k] == ':' ==> k + 1 < |entry| && entry[k + 1] != ' '
    ensures EntryTokens(entry) == ValueTokens(entry)
  {
    assert ColonFrom(entry, 0) < 0;
    assert [] + ValueTokens(entry) == ValueTokens(entry);
  }

  /** A sequence marker is a mark, and what follows it is shown as if it stood alone. */
  lemma MarkerOnText(rest: string)
    ensures ContentTokens(['-', ' '] + rest) == [Token(['-', ' '], PunctTok)] + ContentTokens(rest)
    ensures ContentTokens(['-']) == [Token(['-'], PunctTok)]
  {
    var content := ['-', ' '] + rest;
    assert content[..2] == ['-', ' '] && content[2..] == rest;
    Assoc([Token(['-', ' '], PunctTok)], MarkerTokens(rest), EntryTokens(BehindMarkers(rest)));
    var dash: string := ['-'];
    assert dash[..1] == dash && dash[1..] == [];
    NothingToShow([]);
    assert MarkerTokens([]) == [] && BehindMarkers([]) == [];
  }

  // ---- scanning a line ----

  /** Where a quoted string ends is determined by the quotes that close it. */
  lemma {:induction false} OneQuoteEnd(t: string, p: nat, end: nat)
    requires 1 <= p <= end <= |t| && QuoteEndsAt(t, 1, end, t[0]) && (p == end ==> end == |t|)
    ensures QuoteEnd(t, p) == end
    decreases |t| - p
  {
    if p < |t| && !Closes(t, 1, p, t[0]) {
      OneQuoteEnd(t, p + 1, end);
    }
  }

  method TokenizeQuoted(t: string, out: seq<Token>) returns (more: seq<Token>)
    requires |t| > 0
    ensures more == out + QuotedTokens(t)
  {
    var end := QuotedEnd(t);
    OneQuoteEnd(t, 1, end);
    more := out + [Token(t[..end], StringTok)];
    if end < |t| {
      more := more + [Token(t[end..], PlainTok)];
    }
  }

  method TokenizeScalar(t: string, out: seq<Token>) returns (more: seq<Token>, opens: bool)
    requires |t| > 0
    ensures more == out + ScalarTokens(t) && (opens <==> IsBlockIndicator(t))
  {
    opens := false;
    if IsBlockIndicator(t) {
      opens := true;
      more := out + [Token(t, PunctTok)];
    } else if t == "{}" || t == "[]" {
      more := out + [Token(t, PunctTok)];
    } else if t[0] == '"' || t[0] == '\'' {
      more := TokenizeQuoted(t, out);
    } else if IsNumber(t) {
      more := out + [Token(t, NumberTok)];
    } else if t == "true" || t == "false" || t == "null" || t == "~" {
      more := out + [Token(t, KeywordTok)];
    } else {
      more := out + [Token(t, StringTok)];
    }
  }

  method TokenizeYamlValue(v: string, out: seq<Token>) returns (more: seq<Token>, opens: bool)
    ensures more == out + ValueTokens(v) && (opens <==> IsBlockIndicator(Scalar(v)))
  {
    more, opens := out, false;
    if |v| == 0 {
      return;
    }
    var ws := LeadingSpaces(v);
    var t := v[ws..];
    if ws > 0 {
      more := more + [Token(v[..ws], PlainTok)];
    }
    if |t| == 0 {
      return;
    }
    more, opens := TokenizeScalar(t, more);
  }

  method TokenizeEntry(rest: string, out: seq<Token>) returns (more: seq<Token>, opens: bool)
    ensures more == out + EntryTokens(rest) && (opens <==> EntryOpens(rest))
  {
    var sep := FindKeyColon(rest);
    if sep < 0 {
      more, opens := TokenizeYamlValue(rest, out);
      assert [] + ValueTokens(rest) == ValueTokens(rest);
      return;
    }
    more := out;
    if sep > 0 {
      more := more + [Token(rest[..sep], KeyTok)];
    }
    more := more + [Token(rest[sep..sep + 1], PunctTok)];
    assert more == out + KeyTokens(rest);
    more, opens := TokenizeYamlValue(rest[sep + 1..], more);
    Assoc(out, KeyTokens(rest), ValueTokens(ValueOf(rest)));
  }

  method Markers(start: string, out: seq<Token>) returns (rest: string, more: seq<Token>)
    ensures rest == BehindMarkers(start) && more == out + MarkerTokens(start)
  {
    rest, more := start, out;
    while MarkerLength(rest) > 0
      invariant BehindMarkers(rest) == BehindMarkers(start)
      invariant more + MarkerTokens(rest) == out + MarkerTokens(start)
      decreases |rest|
    {
      var n := MarkerLength(rest);
      Assoc(more, [Token(rest[..n], PunctTok)], MarkerTokens(rest[n..]));
      more, rest := more + [Token(rest[..n], PunctTok)], rest[n..];
    }
  }

  lemma NothingToShow(entry: string)
    requires |entry| == 0
    ensures EntryTokens(entry) == [] && !EntryOpens(entry)
  {
  }

  method TokenizeContent(content: string, out: seq<Token>) returns (more: seq<Token>, opens: bool)
    ensures more == out + ContentTokens(content) && (opens <==> EntryOpens(BehindMarkers(content)))
  {
    var rest, marked := Markers(content, out);
    Assoc(out, MarkerTokens(content), EntryTokens(rest));
    if |rest| == 0 {
      NothingToShow(rest);
      return marked, false;
    }
    more, opens := TokenizeEntry(rest, marked);
  }

  lemma EmptyLine(line: string)
    requires |line| == 0
    ensures LineTokens(line) == [] && LineOpens(line) == None
  {
    NothingToShow(line);
  }

  method TokenizeYamlLine(line: string, out: seq<Token>) returns (more: seq<Token>, opens: Option<nat>)
    ensures more == out + LineTokens(line) && opens == LineOpens(line)
  {
    if |line| == 0 {
      EmptyLine(line);
      return out, None;
    }
    var indent := LeadingSpaces(line);
    var block;
    more, block := TokenizeContent(line[indent..], out + IndentTokens(line));
    Assoc(out, IndentTokens(line), ContentTokens(line[indent..]));
    opens := if block then Some(indent) else None;
  }

  // ---- the lines of a document, and the block scalars among them ----

  function ShapeOf(line: string): LineShape {
    LineShape(IsBlank(line), LeadingSpaces(line), LineOpens(line).Some?)
  }

  function ShapesOf(lines: seq<string>): seq<LineShape> {
    seq(|lines|, i requires 0 <= i < |lines| => ShapeOf(lines[i]))
  }

  /** A line as content of a block scalar. */
  function Verbatim(line: string): seq<Token> {
    if |line| == 0 then [] else [Token(line, StringTok)]
  }

  function NewlineAfter(lines: seq<string>, i: nat): seq<Token> {
    if i + 1 < |lines| then [Token("\n", PlainTok)] else []
  }

  /** A line and the newline that ends it, as tokens and as text. */
  function PartOf(lines: seq<string>, i: nat, content: bool): seq<Token>
    requires i < |lines|
  {
    (if content then Verbatim(lines[i]) else LineTokens(lines[i])) + NewlineAfter(lines, i)
  }

  function TextOf(lines: seq<string>, i: nat): string
    requires i < |lines|
  {
    lines[i] + if i + 1 < |lines| then "\n" else ""
  }

  /** Block content as it is, any other line part by part. */
  function PartsOf(lines: seq<string>): seq<seq<Token>> {
    seq(|lines|, i requires 0 <= i < |lines| => PartOf(lines, i, IsContent(ShapesOf(lines), i)))
  }

  /** The first `n` parts, one after the other. */
  function Concat<T>(parts: seq<seq<T>>, n: nat): seq<T>
    requires n <= |parts|
  {
    if n == 0 then [] else Concat(parts, n - 1) + parts[n - 1]
  }

  function DocTokens(lines: seq<string>): seq<Token> {
    Concat(PartsOf(lines), |lines|)
  }

  ghost predicate AreShapesOf(shapes: seq<LineShape>, lines: seq<string>) {
    |shapes| == |lines| && forall i {:trigger ShapeOf(lines[i])} :: 0 <= i < |lines| ==> shapes[i] == ShapeOf(lines[i])
  }

  ghost predicate ArePartsOf(parts: seq<seq<Token>>, lines: seq<string>, shapes: seq<LineShape>)
    requires |shapes| == |lines|
  {
    && |parts| == |lines|
    && forall i {:trigger PartOf(lines, i, IsContent(shapes, i))} :: 0 <= i < |lines| ==>
         parts[i] == PartOf(lines, i, IsContent(shapes, i))
  }

  /** No token holds a newline but those that are one. */
  ghost predicate NoNewlineInside(out: seq<Token>) {
    forall i :: 0 <= i < |out| ==> out[i] == Token("\n", PlainTok) || '\n' !in out[i].text
  }

  lemma {:induction false} TokensSpellText(tokens: seq<Token>, i: nat, c: char)
    requires i < |tokens| && c in tokens[i].text
    ensures c in Text(tokens)
  {
    if i < |tokens| - 1 {
      TokensSpellText(tokens[..|tokens| - 1], i, c);
    }
  }

  lemma SpelledStaysInside(tokens: seq<Token>, line: string)
    requires Spells(tokens, line) && '\n' !in line
    ensures NoNewlineInside(tokens)
  {
    forall i | 0 <= i < |tokens| ensures '\n' !in tokens[i].text {
      if '\n' in tokens[i].text {
        TokensSpellText(tokens, i, '\n');
      }
    }
  }

  lemma ContentSpellsLine(line: string)
    ensures Spells(Verbatim(line), line)
  {
    if |line| > 0 {
      SpellsOne(Token(line, StringTok));
    }
  }

  lemma NewlineSpells(lines: seq<string>, i: nat)
    ensures Spells(NewlineAfter(lines, i), if i + 1 < |lines| then "\n" else "")
    ensures NoNewlineInside(NewlineAfter(lines, i))
  {
    if i + 1 < |lines| {
      SpellsOne(Token("\n", PlainTok));
    }
  }

  lemma PartSpells(lines: seq<string>, i: nat, content: bool)
    requires i < |lines| && '\n' !in lines[i]
    ensures Spells(PartOf(lines, i, content), TextOf(lines, i)) && NoNewlineInside(PartOf(lines, i, content))
  {
    var line := lines[i];
    var tokens := if content then Verbatim(line) else LineTokens(line);
    LineSpells(line);
    ContentSpellsLine(line);
    SpelledStaysInside(tokens, line);
    NewlineSpells(lines, i);
    SpellsBoth(tokens, NewlineAfter(lines, i), line, if i + 1 < |lines| then "\n" else "");
  }

  ghost predicate PartIsFine(parts: seq<seq<Token>>, texts: seq<string>, i: int) {
    0 <= i < |parts| && i < |texts| ==> Spells(parts[i], texts[i]) && NoNewlineInside(parts[i])
  }

  /** The parts begin where their texts do. */
  lemma {:induction false} ConcatSpells(parts: seq<seq<Token>>, texts: seq<string>, n: nat)
    requires n <= |parts| == |texts| && forall i :: PartIsFine(parts, texts, i)
    ensures Spells(Concat(parts, n), Concat(texts, n)) && NoNewlineInside(Concat(parts, n))
  {
    if n > 0 {
      ConcatSpells(parts, texts, n - 1);
      assert PartIsFine(parts, texts, n - 1);
      SpellsBoth(Concat(parts, n - 1), parts[n - 1], Concat(texts, n - 1), texts[n - 1]);
    }
  }

  function TextsOf(lines: seq<string>): (texts: seq<string>)
    ensures |texts| == |lines| && forall i :: 0 <= i < |lines| ==> texts[i] == TextOf(lines, i)
  {
    seq(|lines|, i requires 0 <= i < |lines| => TextOf(lines, i))
  }

  lemma {:induction false} ConcatIsJoin(lines: seq<string>, texts: seq<string>, n: nat)
    requires 0 < n <= |lines| == |texts| && forall i :: 0 <= i < |lines| ==> texts[i] == TextOf(lines, i)
    ensures Concat(texts, n) == Join(lines[..n]) + if n < |lines| then "\n" else ""
  {
    if n > 1 {
      ConcatIsJoin(lines, texts, n - 1);
      assert lines[..n][..n - 1] == lines[..n - 1];
    } else {
      assert Concat(texts, 0) == [];
      assert [] + texts[0] == texts[0];
    }
  }

  /** The tokens give back the document, none is empty or straddles a line. */
  lemma DocSpells(lines: seq<string>)
    requires lines != [] && NoNewlines(lines)
    ensures Spells(DocTokens(lines), Join(lines)) && NoNewlineInside(DocTokens(lines))
  {
    var parts, texts, n := PartsOf(lines), TextsOf(lines), |lines|;
    forall i ensures PartIsFine(parts, texts, i) {
      if 0 <= i < n {
        PartSpells(lines, i, IsContent(ShapesOf(lines), i));
      }
    }
    ConcatSpells(parts, texts, n);
    ConcatIsJoin(lines, texts, n);
    assert lines[..n] == lines;
  }

  // ---- scanning a document ----

  /** The block state over one more line, read off the line itself. */
  lemma BlockNext(shapes: seq<LineShape>, i: nat, line: string)
    requires i < |shapes| && shapes[i] == ShapeOf(line)
    ensures
      var block := BlockAfter(shapes, i);
      && (IsContent(shapes, i) <==> block.Some? && (IsBlank(line) || LeadingSpaces(line) > block.value))
      && BlockAfter(shapes, i + 1) == if IsContent(shapes, i) then block else LineOpens(line)
  {
  }

  /** One line: content goes out as it is, anything else is scanned and may open a block. */
  method TokenizeLine(line: string, block: Option<nat>, out: seq<Token>) returns (more: seq<Token>, next: Option<nat>)
    ensures
      var content := block.Some? && (IsBlank(line) || LeadingSpaces(line) > block.value);
      && more == out + (if content then Verbatim(line) else LineTokens(line))
      && next == if content then block else LineOpens(line)
  {
    if block.Some? && (IsBlank(line) || LeadingSpaces(line) > block.value) {
      return out + Verbatim(line), block;
    }
    more, next := TokenizeYamlLine(line, out);
  }

  method TokenizeNext(lines: seq<string>, i: nat, block: Option<nat>, out: seq<Token>, ghost shapes: seq<LineShape>)
    returns (more: seq<Token>, next: Option<nat>)
    requires i < |lines| == |shapes| && shapes[i] == ShapeOf(lines[i]) && block == BlockAfter(shapes, i)
    ensures more == out + PartOf(lines, i, IsContent(shapes, i)) && next == BlockAfter(shapes, i + 1)
  {
    BlockNext(shapes, i, lines[i]);
    var shown;
    shown, next := TokenizeLine(lines[i], block, out);
    more := shown + NewlineAfter(lines, i);
    Assoc(out, if IsContent(shapes, i) then Verbatim(lines[i]) else LineTokens(lines[i]), NewlineAfter(lines, i));
  }

  /** The scan after `i` lines. */
  ghost predicate ScannedTo(shapes: seq<LineShape>, parts: seq<seq<Token>>, i: nat, block: Option<nat>,
                            out: seq<Token>)
  {
    i <= |shapes| == |parts| && block == BlockAfter(shapes, i) && out == Concat(parts, i)
  }

  lemma ScannedNext(lines: seq<string>, shapes: seq<LineShape>, parts: seq<seq<Token>>, i: nat)
    requires i < |lines| && AreShapesOf(shapes, lines) && ArePartsOf(parts, lines, shapes)
    ensures shapes[i] == ShapeOf(lines[i])
    ensures Concat(parts, i + 1) == Concat(parts, i) + PartOf(lines, i, IsContent(shapes, i))
  {
    assert parts[i] == PartOf(lines, i, IsContent(shapes, i));
  }

  method TokenizeScanned(lines: seq<string>, i: nat, block: Option<nat>, out: seq<Token>,
                         ghost shapes: seq<LineShape>, ghost parts: seq<seq<Token>>)
    returns (more: seq<Token>, next: Option<nat>)
    requires i < |lines| && AreShapesOf(shapes, lines) && ArePartsOf(parts, lines, shapes)
    requires ScannedTo(shapes, parts, i, block, out)
    ensures ScannedTo(shapes, parts, i + 1, next, more)
  {
    ScannedNext(lines, shapes, parts, i);
    more, next := TokenizeNext(lines, i, block, out, shapes);
  }

  method TokenizeLines(lines: seq<string>, ghost shapes: seq<LineShape>, ghost parts: seq<seq<Token>>)
    returns (out: seq<Token>)
    requires AreShapesOf(shapes, lines) && ArePartsOf(parts, lines, shapes)
    ensures out == Concat(parts, |lines|)
  {
    var block: Option<nat> := None;
    out := [];
    var i := 0;
    while i < |lines|
      invariant i <= |lines| && ScannedTo(shapes, parts, i, block, out)
    {
      out, block := TokenizeScanned(lines, i, block, out, shapes, parts);
      i := i + 1;
    }
  }

  /** The tokens of the lines, which give back the document; none is empty or straddles a line. */
  method TokenizeYaml(text: string) returns (out: seq<Token>)
    ensures out == DocTokens(Lines(text))
    ensures Text(out) == text && NoneEmpty(out) && NoNewlineInside(out)
  {
    out := TokenizeLines(Lines(text), ShapesOf(Lines(text)), PartsOf(Lines(text)));
    DocSpells(Lines(text));
  }
}
