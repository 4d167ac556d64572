/**
 web/src/manifestSyntax.ts: the vocabulary of the manifest tokenizers, and what their output is measured by.
 A string is a sequence of characters; the original's slices are clipped to the string.
 */
module ManifestTokens {

  datatype TokType = KeyTok | StringTok | NumberTok | KeywordTok | PunctTok | PlainTok
  datatype Token = Token(text: string, typ: TokType)

  /** A character with the colour it is shown in. */
  datatype Glyph = Glyph(c: char, typ: TokType)

  /** All the text of some tokens, in order. */
  function Text(tokens: seq<Token>): string {
    if tokens == [] then "" else Text(tokens[..|tokens| - 1]) + tokens[|tokens| - 1].text
  }

  lemma {:induction false} TextOfBoth(a: seq<Token>, b: seq<Token>)
    ensures Text(a + b) == Text(a) + Text(b)
  {
    if b == [] {
      assert a + b == a;
    } else {
      assert (a + b)[..|a + b| - 1] == a + b[..|b| - 1];
      TextOfBoth(a, b[..|b| - 1]);
    }
  }

  lemma TextPush(a: seq<Token>, t: Token)
    ensures Text(a + [t]) == Text(a) + t.text
  {
    assert (a + [t])[..|a|] == a;
  }

  ghost predicate NoneEmpty(tokens: seq<Token>) {
    forall i :: 0 <= i < |tokens| ==> tokens[i].text != ""
  }

  /** s.slice(a, b) for 0 <= a <= b. */
  function Slice(s: string, a: nat, b: nat): string
    requires a <= b
  {
    if a >= |s| then "" else if b >= |s| then s[a..] else s[a..b]
  }

  lemma SliceJoins(s: string, a: nat, b: nat)
    requires a <= b
    ensures Slice(s, 0, a) + Slice(s, a, b) == Slice(s, 0, b)
  {
  }

  function LeadingSpaces(s: string): (n: nat)
    ensures n <= |s|
    ensures forall i :: 0 <= i < n ==> s[i] == ' '
    ensures n < |s| ==> s[n] != ' '
  {
    if s == "" || s[0] != ' ' then 0 else 1 + LeadingSpaces(s[1..])
  }

  // ---- numbers: an optional sign, digits without a leading zero, a fraction, an exponent ----

  predicate IsDigit(c: char) {
    '0' <= c <= '9'
  }

  function Digits(s: string): (n: nat)
    ensures n <= |s|
    ensures forall i :: 0 <= i < n ==> IsDigit(s[i])
    ensures n < |s| ==> !IsDigit(s[n])
  {
    if s == "" || !IsDigit(s[0]) then 0 else 1 + Digits(s[1..])
  }

  function IntegerLength(s: string): (n: nat)
    ensures n <= |s|
  {
    if s == "" then 0 else if s[0] == '0' then 1 else Digits(s)
  }

  function FractionLength(s: string): (n: nat)
    ensures n <= |s|
  {
    if s != "" && s[0] == '.' && Digits(s[1..]) > 0 then 1 + Digits(s[1..]) else 0
  }

  function ExponentLength(s: string): (n: nat)
    ensures n <= |s|
  {
    if s == "" || (s[0] != 'e' && s[0] != 'E') then 0
    else
      var sign := if |s| > 1 && (s[1] == '+' || s[1] == '-') then 1 else 0;
      var digits := Digits(s[1 + sign..]);
      if digits == 0 then 0 else 1 + sign + digits
  }

  /** How much of the start of `s` is a number; 0 when it does not start with one. */
  function NumberLength(s: string): (n: nat)
    ensures n <= |s|
    ensures n > 0 ==> s[0] == '-' || IsDigit(s[0])
  {
    var sign := if s != "" && s[0] == '-' then 1 else 0;
    var whole := IntegerLength(s[sign..]);
    if whole == 0 then 0
    else
      var fraction := FractionLength(s[sign + whole..]);
      sign + whole + fraction + ExponentLength(s[sign + whole + fraction..])
  }

  predicate IsNumber(s: string) {
    s != "" && NumberLength(s) == |s|
  }

  ghost predicate AreDigits(s: string) {
    |s| > 0 && forall i :: 0 <= i < |s| ==> '0' <= s[i] <= '9'
  }

  /** Digits that do not begin with a zero, or one digit. */
  ghost predicate IsWhole(s: string) {
    AreDigits(s) && (s[0] != '0' || |s| == 1)
  }

  lemma {:induction false} DigitsInFront(d: string, rest: string)
    requires forall i :: 0 <= i < |d| ==> IsDigit(d[i])
    requires |rest| == 0 || !IsDigit(rest[0])
    ensures Digits(d + rest) == |d|
  {
    if |d| > 0 {
      DigitsInFront(d[1..], rest);
      assert (d + rest)[1..] == d[1..] + rest;
    } else {
      assert d + rest == rest;
    }
  }

  lemma WholeInFront(d: string, rest: string)
    requires IsWhole(d) && (|rest| == 0 || !IsDigit(rest[0]))
    ensures IntegerLength(d + rest) == |d| && (d + rest)[|d|..] == rest
  {
    DigitsInFront(d, rest);
  }

  /** Whole numbers are numbers, with a sign and with a fraction too. */
  lemma WholesAreNumbers(d: string, e: string)
    requires IsWhole(d) && AreDigits(e)
    ensures IsNumber(d) && IsNumber(['-'] + d) && IsNumber(d + ['.'] + e)
  {
    WholeInFront(d, []);
    assert d + [] == d && d[0..] == d;
    assert (['-'] + d)[1..] == d;
    WholeInFront(d, ['.'] + e);
    DigitsInFront(e, []);
    assert e + [] == e && (['.'] + e)[1..] == e;
    assert d + (['.'] + e) == d + ['.'] + e;
    assert (d + ['.'] + e)[0..] == d + ['.'] + e;
    assert (d + ['.'] + e)[|d| + |['.'] + e|..] == [];
  }

  lemma NumberWith(d: string, y: string)
    requires IsWhole(d) && |y| > 0 && !IsDigit(y[0]) && y[0] != '.' && ExponentLength(y) == |y|
    ensures IsNumber(d + y)
  {
    var s := d + y;
    WholeInFront(d, y);
    assert s[0..] == s && s[|d| + 0..] == y;
  }

  lemma ExponentAlone(e: string)
    requires AreDigits(e)
    ensures ExponentLength(['e'] + e) == |['e'] + e| && ExponentLength(['E', '-'] + e) == |['E', '-'] + e|
  {
    DigitsInFront(e, []);
    assert e + [] == e;
    var x, y := ['e'] + e, ['E', '-'] + e;
    assert x[1..] == e && y[2..] == e;
  }

  /** An exponent may follow. */
  lemma ExponentsAreNumbers(d: string, e: string)
    requires IsWhole(d) && AreDigits(e)
    ensures IsNumber(d + (['e'] + e)) && IsNumber(d + (['E', '-'] + e))
  {
    ExponentAlone(e);
    NumberWith(d, ['e'] + e);
    NumberWith(d, ['E', '-'] + e);
  }

  /** Further digits behind a leading zero make no number. */
  lemma LeadingZeroIsNoNumber(s: string)
    requires |s| > 1 && s[0] == '0' && '0' <= s[1] <= '9'
    ensures !IsNumber(s)
  {
    assert s[0..] == s && s[1..][0] == s[1];
  }

  /** What does not begin with a digit or a minus is no number. */
  lemma OthersAreNoNumbers(s: string)
    requires |s| > 0 && s[0] != '-' && !('0' <= s[0] <= '9')
    ensures !IsNumber(s)
  {
  }

  predicate IsKeyword(s: string) {
    s == "true" || s == "false" || s == "null"
  }

  // ---- quoted strings ----

  /** How many backslashes stand right before `p`, not counting back past `start`. */
  function Backslashes(s: string, start: nat, p: nat): (n: nat)
    requires start <= p <= |s|
    ensures n <= p - start
  {
    if p > start && s[p - 1] == '\\' then 1 + Backslashes(s, start, p - 1) else 0
  }

  /** The quote at `p` closes a string whose text starts at `start`: only double quotes can be escaped. */
  predicate Closes(s: string, start: nat, p: nat, quote: char)
    requires start <= p < |s|
  {
    s[p] == quote && (quote == '"' ==> Backslashes(s, start, p) % 2 == 0)
  }

  /** A single quote always closes; a double quote does unless a backslash stands before it that is not escaped
      itself. */
  lemma ClosesOnText(s: string, start: nat, p: nat, quote: char)
    requires start <= p < |s|
    ensures quote != '"' ==> (Closes(s, start, p, quote) <==> s[p] == quote)
    ensures s[p] == quote && (p == start || s[p - 1] != '\\') ==> Closes(s, start, p, quote)
    ensures quote == '"' && start < p && s[p - 1] == '\\' && (p - 1 == start || s[p - 2] != '\\') ==>
              !Closes(s, start, p, quote)
    ensures s[p] == quote && start < p - 1 && s[p - 1] == s[p - 2] == '\\' && (p - 2 == start || s[p - 3] != '\\') ==>
              Closes(s, start, p, quote)
  {
    if start < p && s[p - 1] == '\\' {
      assert Backslashes(s, start, p) == 1 + Backslashes(s, start, p - 1);
      if start < p - 1 && s[p - 2] == '\\' {
        assert Backslashes(s, start, p - 1) == 1 + Backslashes(s, start, p - 2);
      }
    }
  }

  /** `end` is just past the first closing quote, or where the input ends. */
  ghost predicate QuoteEndsAt(s: string, start: nat, end: nat, quote: char)
    requires start <= end <= |s|
  {
    && (forall p :: start <= p < end - 1 ==> !Closes(s, start, p, quote))
    && (end < |s| ==> start < end && Closes(s, start, end - 1, quote))
  }

  // ---- tokens laid end to end ----

  /** Nonempty tokens from 0 up to `end`, each fit for the place where it starts. */
  ghost predicate Tiled(fits: (nat, Token) -> bool, out: seq<Token>, end: nat)
    decreases |out|
  {
    if out == [] then end == 0
    else
      var tok := out[|out| - 1];
      tok.text != "" && |tok.text| <= end && fits(end - |tok.text|, tok) &&
        Tiled(fits, out[..|out| - 1], end - |tok.text|)
  }

  lemma TilePush(fits: (nat, Token) -> bool, out: seq<Token>, at: nat, tok: Token)
    requires Tiled(fits, out, at) && tok.text != "" && fits(at, tok)
    ensures Tiled(fits, out + [tok], at + |tok.text|)
  {
    assert (out + [tok])[..|out|] == out;
  }

  /** The same read from the front. */
  ghost predicate TiledFrom(fits: (nat, Token) -> bool, i: nat, out: seq<Token>, end: nat)
    decreases |out|
  {
    if out == [] then i == end
    else out[0].text != "" && fits(i, out[0]) && TiledFrom(fits, i + |out[0].text|, out[1..], end)
  }

  lemma {:induction false} TiledOn(fits: (nat, Token) -> bool, out: seq<Token>, mid: nat, rest: seq<Token>, end: nat)
    requires Tiled(fits, out, mid) && TiledFrom(fits, mid, rest, end)
    ensures TiledFrom(fits, 0, out + rest, end)
    decreases |out|
  {
    if out == [] {
      assert out + rest == rest;
    } else {
      var init, tok := out[..|out| - 1], out[|out| - 1];
      assert ([tok] + rest)[1..] == rest;
      TiledOn(fits, init, mid - |tok.text|, [tok] + rest, end);
      assert init + ([tok] + rest) == out + rest;
    }
  }

  lemma {:induction false} TiledFromStaysWithin(fits: (nat, Token) -> bool, i: nat, out: seq<Token>, end: nat)
    requires TiledFrom(fits, i, out, end)
    ensures i <= end && (out != [] ==> i < end)
    decreases |out|
  {
    if out != [] {
      TiledFromStaysWithin(fits, i + |out[0].text|, out[1..], end);
    }
  }

  lemma {:induction false} SameTiling(fits: (nat, Token) -> bool, i: nat, a: seq<Token>, b: seq<Token>, end: nat)
    requires TiledFrom(fits, i, a, end) && TiledFrom(fits, i, b, end)
    requires forall at, t, u :: fits(at, t) && fits(at, u) ==> t == u
    ensures a == b
    decreases |a|
  {
    TiledFromStaysWithin(fits, i, a, end);
    TiledFromStaysWithin(fits, i, b, end);
    if a != [] && b != [] {
      assert a[0] == b[0];
      SameTiling(fits, i + |a[0].text|, a[1..], b[1..], end);
      assert a == [a[0]] + a[1..] && b == [b[0]] + b[1..];
    }
  }

  /** If at most one token fits each place, there is at most one way to cover the input. */
  lemma TilingIsUnique(fits: (nat, Token) -> bool, a: seq<Token>, b: seq<Token>, end: nat)
    requires Tiled(fits, a, end) && Tiled(fits, b, end)
    requires forall at, t, u :: fits(at, t) && fits(at, u) ==> t == u
    ensures a == b
  {
    TiledOn(fits, a, end, [], end);
    TiledOn(fits, b, end, [], end);
    assert a + [] == a && b + [] == b;
    SameTiling(fits, 0, a, b, end);
  }
}
