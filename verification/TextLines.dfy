/** Splitting a text at its newlines and joining it back: split('\n') and join('\n'). */
module TextLines {
  function Join(lines: seq<string>): string
    requires lines != []
  {
    if |lines| == 1 then lines[0] else Join(lines[..|lines| - 1]) + "\n" + lines[|lines| - 1]
  }

  ghost predicate NoNewlines(lines: seq<string>) {
    forall i :: 0 <= i < |lines| ==> '\n' !in lines[i]
  }

  lemma JoinWithLast(init: seq<string>, a: string, b: string)
    ensures Join(init + [a + b]) == Join(init + [a]) + b
  {
    assert (init + [a + b])[..|init|] == init && (init + [a])[..|init|] == init;
  }

  lemma JoinWithEmpty(lines: seq<string>)
    requires lines != []
    ensures Join(lines + [""]) == Join(lines) + "\n"
  {
    assert (lines + [""])[..|lines|] == lines;
  }

  /** The lines of a text that goes on with `c`. */
  function LinesWith(lines: seq<string>, c: char): (more: seq<string>)
    requires lines != [] && NoNewlines(lines)
    ensures more != [] && Join(more) == Join(lines) + [c] && NoNewlines(more)
  {
    var init, last := lines[..|lines| - 1], lines[|lines| - 1];
    assert lines == init + [last];
    if c == '\n' then
      JoinWithEmpty(lines);
      lines + [""]
    else
      JoinWithLast(init, last, [c]);
      init + [last + [c]]
  }

  /** text.split('\n') */
  function Lines(text: string): (lines: seq<string>)
    ensures lines != [] && Join(lines) == text && NoNewlines(lines)
  {
    if text == "" then [""]
    else
      assert text == text[..|text| - 1] + [text[|text| - 1]];
      LinesWith(Lines(text[..|text| - 1]), text[|text| - 1])
  }

  lemma {:induction false} LinesAreTheOnlySplit(a: seq<string>, b: seq<string>)
    requires a != [] && b != [] && NoNewlines(a) && NoNewlines(b) && Join(a) == Join(b)
    ensures a == b
  {
    var la, lb := |a| - 1, |b| - 1;
    LastLine(a);
    LastLine(b);
    SameTail(Join(a), a[la], b[lb], la > 0, lb > 0);
    assert a == a[..la] + [a[la]] && b == b[..lb] + [b[lb]];
    if la > 0 && lb > 0 {
      assert Join(a[..la]) == Join(a)[..|Join(a)| - |a[la]| - 1];
      assert Join(b[..lb]) == Join(b)[..|Join(b)| - |b[lb]| - 1];
      LinesAreTheOnlySplit(a[..la], b[..lb]);
    }
  }

  /** `last` is what `text` has after its last newline, which it has if `more`. */
  ghost predicate EndsWithLine(text: string, last: string, more: bool) {
    && '\n' !in last && |last| <= |text| && text[|text| - |last|..] == last
    && (if more then |last| < |text| && text[|text| - |last| - 1] == '\n' else |last| == |text|)
  }

  lemma LastLine(lines: seq<string>)
    requires lines != [] && NoNewlines(lines)
    ensures EndsWithLine(Join(lines), lines[|lines| - 1], |lines| > 1)
  {
  }

  lemma TailChar(text: string, tail: string, k: nat)
    requires |tail| <= |text| && text[|text| - |tail|..] == tail && k < |tail|
    ensures text[|text| - 1 - k] in tail
  {
    assert text[|text| - 1 - k] == tail[|tail| - 1 - k];
  }

  lemma NoLongerLine(text: string, a: string, b: string, moreA: bool, moreB: bool)
    requires EndsWithLine(text, a, moreA) && EndsWithLine(text, b, moreB)
    ensures |b| <= |a|
  {
    var k: nat := |a|;
    if k < |b| {
      TailChar(text, b, k);
    }
  }

  lemma SameTail(text: string, a: string, b: string, moreA: bool, moreB: bool)
    requires EndsWithLine(text, a, moreA) && EndsWithLine(text, b, moreB)
    ensures a == b && moreA == moreB
  {
    NoLongerLine(text, a, b, moreA, moreB);
    NoLongerLine(text, b, a, moreB, moreA);
  }
}
