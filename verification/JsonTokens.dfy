/** web/src/manifestSyntax.ts, tokenizeJson: a scanner that loses nothing. */
module JsonTokens {
  import opened Prelude
  import opened ManifestTokens

  predicate IsSpace(c: char) {
    c == ' ' || c == '\n' || c == '\t' || c == '\r'
  }

  predicate IsStructural(c: char) {
    c == '{' || c == '}' || c == '[' || c == ']' || c == ':' || c == ','
  }

  function SkipSpace(s: string, i: nat): (j: nat)
    ensures i <= j && (i <= |s| ==> j <= |s|)
    ensures forall k :: i <= k < j && k < |s| ==> IsSpace(s[k])
    ensures j < |s| ==> !IsSpace(s[j])
    decreases |s| - i
  {
    if i < |s| && IsSpace(s[i]) then SkipSpace(s, i + 1) else i
  }

  predicate ColonFollows(s: string, i: nat) {
    var k := SkipSpace(s, i);
    k < |s| && s[k] == ':'
  }

  /** What a token's text is, by its type, given the input up to and from the place it starts. */
  ghost predicate WellTyped(s: string, at: nat, tok: Token)
    requires at <= |s|
  {
    && tok.text != "" && tok.text <= s[at..]
    && match tok.typ
       case KeyTok => IsQuoted(s, at, tok.text) && ColonFollows(s, at + |tok.text|)
       case StringTok => IsQuoted(s, at, tok.text) && !ColonFollows(s, at + |tok.text|)
       case NumberTok => |tok.text| == NumberLength(s[at..])
       case KeywordTok => IsKeyword(tok.text)
       case PunctTok => |tok.text| == 1 && IsStructural(tok.text[0])
       case PlainTok => IsSpaceRun(s, at, tok.text) || IsStray(s, at, tok.text)
  }

  ghost predicate IsQuoted(s: string, at: nat, text: string)
    requires at <= |s| && text != "" && text <= s[at..]
  {
    text[0] == '"' && QuoteEndsAt(s, at + 1, at + |text|, '"')
  }

  ghost predicate IsSpaceRun(s: string, at: nat, text: string) {
    text != "" && IsSpace(text[0]) && at + |text| == SkipSpace(s, at)
  }

  predicate StartsKeyword(s: string, at: nat)
    requires at <= |s|
  {
    "true" <= s[at..] || "false" <= s[at..] || "null" <= s[at..]
  }

  /** A character no other rule takes. */
  predicate IsStray(s: string, at: nat, text: string)
    requires at <= |s|
  {
    && |text| == 1 && !IsSpace(text[0]) && text[0] != '"' && !IsStructural(text[0])
    && NumberLength(s[at..]) == 0 && !StartsKeyword(s, at)
  }

  /** The input tiled by tokens, each fit for its place. */
  ghost predicate AreTokensOf(out: seq<Token>, s: string) {
    Tiled(Fits(s), out, |s|)
  }

  ghost function Fits(s: string): (nat, Token) -> bool {
    (at: nat, tok: Token) => at < |s| && WellTyped(s, at, tok)
  }

  /** Where the scan of a string that starts after `start` stops; an escape at the very end overshoots by one. */
  method StringEnd(s: string, start: nat) returns (j: nat)
    requires start <= |s|
    ensures start <= j <= |s| + 1
    ensures QuoteEndsAt(s, start, Min(j, |s|), '"')
  {
    j := start;
    while j < |s|
      invariant start <= j <= |s| + 1
      invariant j <= |s| ==> Backslashes(s, start, j) % 2 == 0
      invariant forall p :: start <= p < j && p < |s| ==> !Closes(s, start, p, '"')
    {
      if s[j] == '\\' {
        j := j + 2;
        continue;
      }
      if s[j] == '"' {
        j := j + 1;
        break;
      }
      j := j + 1;
    }
  }

  method QuotedToken(s: string, i: nat) returns (tok: Token, j: nat)
    requires i < |s| && s[i] == '"'
    ensures WellTyped(s, i, tok)
    ensures j > i && Min(j, |s|) == i + |tok.text|
  {
    j := StringEnd(s, i + 1);
    tok := Token(Slice(s, i, j), if ColonFollows(s, j) then KeyTok else StringTok);
  }

  method WordToken(s: string, i: nat) returns (tok: Token, j: nat)
    requires i < |s| && !IsSpace(s[i]) && s[i] != '"' && NumberLength(s[i..]) == 0
    ensures WellTyped(s, i, tok)
    ensures j > i && j == i + |tok.text|
  {
    var c := s[i];
    if "true" <= s[i..] {
      tok, j := Token("true", KeywordTok), i + 4;
    } else if "false" <= s[i..] {
      tok, j := Token("false", KeywordTok), i + 5;
    } else if "null" <= s[i..] {
      tok, j := Token("null", KeywordTok), i + 4;
    } else if IsStructural(c) {
      tok, j := Token([c], PunctTok), i + 1;
    } else {
      tok, j := Token([c], PlainTok), i + 1;
    }
  }

  /** The token at `i` and where the scan goes on. */
  method NextToken(s: string, i: nat) returns (tok: Token, j: nat)
    requires i < |s|
    ensures WellTyped(s, i, tok)
    ensures j > i && Min(j, |s|) == i + |tok.text|
  {
    var c := s[i];
    if IsSpace(c) {
      j := SkipSpace(s, i + 1);
      tok := Token(Slice(s, i, j), PlainTok);
      return;
    }
    if c == '"' {
      tok, j := QuotedToken(s, i);
      return;
    }
    var n := NumberLength(s[i..]);
    if (c == '-' || IsDigit(c)) && n > 0 {
      tok, j := Token(s[i..][..n], NumberTok), i + n;
      return;
    }
    tok, j := WordToken(s, i);
    InBounds(s, i, tok.text);
  }

  lemma InBounds(s: string, i: nat, text: string)
    requires i <= |s| && text <= s[i..]
    ensures i + |text| <= |s|
  {
    assert |text| <= |s[i..]|;
  }

  /** The tokens give back the input, and each is what its type says at the place where it stands. */
  method TokenizeJson(s: string) returns (out: seq<Token>)
    ensures Text(out) == s && NoneEmpty(out)
    ensures AreTokensOf(out, s)
  {
    out := [];
    var i := 0;
    while i < |s|
      invariant Tiled(Fits(s), out, Min(i, |s|))
      invariant Text(out) == s[..Min(i, |s|)] && NoneEmpty(out)
    {
      var tok, j := NextToken(s, i);
      TilePush(Fits(s), out, i, tok);
      TextPush(out, tok);
      TextGrows(s, i, tok.text);
      out, i := out + [tok], j;
    }
    assert s[..|s|] == s;
  }

  lemma TextGrows(s: string, i: nat, text: string)
    requires i <= |s| && text <= s[i..]
    ensures i + |text| <= |s| && s[..i] + text == s[..i + |text|]
  {
    assert |text| <= |s[i..]| && text == s[i..][..|text|];
  }

  // ---- the scan is the only one that fits ----

  lemma OneEnd(s: string, start: nat, a: nat, b: nat, quote: char)
    requires start <= a <= |s| && start <= b <= |s|
    requires QuoteEndsAt(s, start, a, quote) && QuoteEndsAt(s, start, b, quote)
    ensures a == b
  {
  }

  lemma FirstChar(s: string, at: nat, text: string)
    requires at < |s| && text != "" && text <= s[at..]
    ensures text[0] == s[at]
  {
    assert text == s[at..][..|text|];
  }

  lemma KeywordFirst(s: string, at: nat)
    requires at < |s| && StartsKeyword(s, at)
    ensures s[at] == 't' || s[at] == 'f' || s[at] == 'n'
  {
    var word := if "true" <= s[at..] then "true" else if "false" <= s[at..] then "false" else "null";
    FirstChar(s, at, word);
  }

  lemma NumberFirst(s: string, at: nat)
    requires at < |s| && NumberLength(s[at..]) > 0
    ensures s[at] == '-' || IsDigit(s[at])
  {
  }

  /** The first character decides which rule a token came from. */
  lemma RuleByFirst(s: string, at: nat, t: Token)
    requires at < |s| && WellTyped(s, at, t)
    ensures t.text[0] == s[at]
    ensures t.typ == PunctTok <==> IsStructural(s[at])
    ensures t.typ == KeyTok || t.typ == StringTok <==> s[at] == '"'
    ensures t.typ == NumberTok <==> NumberLength(s[at..]) > 0
    ensures t.typ == KeywordTok <==> StartsKeyword(s, at)
  {
    FirstChar(s, at, t.text);
    if StartsKeyword(s, at) {
      KeywordFirst(s, at);
    }
    if NumberLength(s[at..]) > 0 {
      NumberFirst(s, at);
    }
  }

  lemma QuotedAlike(s: string, at: nat, a: Token, b: Token)
    requires at < |s| && WellTyped(s, at, a) && WellTyped(s, at, b) && s[at] == '"'
    ensures |a.text| == |b.text| && a.typ == b.typ
  {
    RuleByFirst(s, at, a);
    RuleByFirst(s, at, b);
    OneEnd(s, at + 1, at + |a.text|, at + |b.text|, '"');
  }

  lemma KeywordsAlike(s: string, at: nat, a: string, b: string)
    requires at < |s| && a <= s[at..] && b <= s[at..] && IsKeyword(a) && IsKeyword(b)
    ensures a == b
  {
    assert a[0] == s[at] && b[0] == s[at];
  }

  /** The types' rules never compete: at most one token fits at a place. */
  lemma OneTokenPerPlace(s: string, at: nat, a: Token, b: Token)
    requires at < |s| && WellTyped(s, at, a) && WellTyped(s, at, b)
    ensures a == b
  {
    RuleByFirst(s, at, a);
    RuleByFirst(s, at, b);
    if s[at] == '"' {
      QuotedAlike(s, at, a, b);
    } else if StartsKeyword(s, at) {
      KeywordsAlike(s, at, a.text, b.text);
    }
    SamePrefix(s[at..], a.text, b.text);
  }

  lemma SamePrefix(s: string, a: string, b: string)
    requires a <= s && b <= s && |a| == |b|
    ensures a == b
  {
    assert a == s[..|a|] && b == s[..|b|];
  }

  /** What TokenizeJson ensures leaves it no choice. */
  lemma ScanIsUnique(s: string, a: seq<Token>, b: seq<Token>)
    requires AreTokensOf(a, s) && AreTokensOf(b, s)
    ensures a == b
  {
    forall at, t, u | Fits(s)(at, t) && Fits(s)(at, u) ensures t == u {
      OneTokenPerPlace(s, at, t, u);
    }
    TilingIsUnique(Fits(s), a, b, |s|);
  }

  /** Between `i` and `k` there is only white space. */
  ghost predicate OnlySpace(s: string, i: nat, k: nat) {
    forall m :: i <= m < k && m < |s| ==> s[m] == ' ' || s[m] == '\n' || s[m] == '\t' || s[m] == '\r'
  }

  lemma ColonIsNext(s: string, i: nat)
    ensures ColonFollows(s, i) <==> exists k :: i <= k < |s| && s[k] == ':' && OnlySpace(s, i, k)
  {
    var j := SkipSpace(s, i);
    if ColonFollows(s, i) {
      assert OnlySpace(s, i, j);
    }
    if k :| i <= k < |s| && s[k] == ':' && OnlySpace(s, i, k) {
      assert j >= k;
    }
  }

  /** What a token is, on the text: marks are the six structural characters; a string in quotes is a key exactly when a
      colon comes next behind white space; the three words are keywords. */
  lemma TypeOnText(s: string, at: nat, t: Token)
    requires at < |s| && WellTyped(s, at, t)
    ensures t.typ == PunctTok <==>
            s[at] == '{' || s[at] == '}' || s[at] == '[' || s[at] == ']' || s[at] == ':' || s[at] == ','
    ensures t.typ == KeyTok <==>
            s[at] == '"' && exists k :: at + |t.text| <= k < |s| && s[k] == ':' && OnlySpace(s, at + |t.text|, k)
    ensures t.typ == StringTok <==>
            s[at] == '"' && !exists k :: at + |t.text| <= k < |s| && s[k] == ':' && OnlySpace(s, at + |t.text|, k)
    ensures t.typ == KeywordTok <==> t.text == "true" || t.text == "false" || t.text == "null"
    ensures t.typ == NumberTok <==> NumberLength(s[at..]) > 0
  {
    RuleByFirst(s, at, t);
    ColonIsNext(s, at + |t.text|);
    if IsKeyword(t.text) {
      assert StartsKeyword(s, at);
    }
  }
}
