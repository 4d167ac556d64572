/** web/src/manifestSyntax.ts, tokenizeYaml: which lines of a document are block scalar content. */
module YamlBlocks {
  import opened Prelude

  /** What the block state reads of a line; `opens` is only asked of lines outside a block. */
  datatype LineShape = LineShape(blank: bool, indent: nat, opens: bool)

  /** In a block opened at indent `d`, a blank or deeper line is content. */
  predicate Continues(line: LineShape, d: nat) {
    line.blank || line.indent > d
  }

  /** The indent of the opener of the block that is open after the first `n` lines. */
  function BlockAfter(lines: seq<LineShape>, n: nat): Option<nat>
    requires n <= |lines|
    decreases n, 1
  {
    if n == 0 then None
    else if IsContent(lines, n - 1) then BlockAfter(lines, n - 1)
    else if lines[n - 1].opens then Some(lines[n - 1].indent) else None
  }

  /** Line `i` is content of a block scalar, not structure. */
  predicate IsContent(lines: seq<LineShape>, i: nat)
    requires i < |lines|
    decreases i, 2
  {
    BlockAfter(lines, i).Some? && Continues(lines[i], BlockAfter(lines, i).value)
  }

  /** Line `h` is an opener outside any block, and the lines after it up to `n` are blank or deeper. */
  ghost predicate OpenedBy(lines: seq<LineShape>, h: nat, n: nat)
    requires n <= |lines|
  {
    && h < n && !IsContent(lines, h) && lines[h].opens
    && forall k :: h < k < n ==> Continues(lines[k], lines[h].indent)
  }

  lemma {:induction false} BlockHasOpener(lines: seq<LineShape>, n: nat) returns (h: nat)
    requires n <= |lines| && BlockAfter(lines, n).Some?
    ensures OpenedBy(lines, h, n) && BlockAfter(lines, n) == Some(lines[h].indent)
  {
    if IsContent(lines, n - 1) {
      h := BlockHasOpener(lines, n - 1);
    } else {
      h := n - 1;
    }
  }

  lemma {:induction false} OpenerStaysOpen(lines: seq<LineShape>, h: nat, n: nat)
    requires n <= |lines| && OpenedBy(lines, h, n)
    ensures BlockAfter(lines, n) == Some(lines[h].indent)
  {
    if n > h + 1 {
      OpenerStaysOpen(lines, h, n - 1);
    }
  }

  /** `h` opens a block, and every line behind it, up to and with `i`, is blank or deeper. */
  ghost predicate Reaches(lines: seq<LineShape>, h: nat, i: nat)
    requires i < |lines|
  {
    && h < i && lines[h].opens && !IsContent(lines, h)
    && forall k :: h < k <= i ==> lines[k].blank || lines[k].indent > lines[h].indent
  }

  lemma ReachesIsOpen(lines: seq<LineShape>, h: nat, i: nat)
    requires i < |lines|
    ensures Reaches(lines, h, i) <==> OpenedBy(lines, h, i) && Continues(lines[i], lines[h].indent)
  {
    if OpenedBy(lines, h, i) && Continues(lines[i], lines[h].indent) {
      forall k | h < k <= i ensures lines[k].blank || lines[k].indent > lines[h].indent {
        assert k < i ==> Continues(lines[k], lines[h].indent);
      }
    }
  }

  /** A line is verbatim content exactly when some opener outside any block reaches it. */
  lemma ContentIffOpened(lines: seq<LineShape>, i: nat)
    requires i < |lines|
    ensures IsContent(lines, i) <==> exists h: nat :: Reaches(lines, h, i)
  {
    if IsContent(lines, i) {
      var h := BlockHasOpener(lines, i);
      ReachesIsOpen(lines, h, i);
    }
    if h: nat :| Reaches(lines, h, i) {
      ReachesIsOpen(lines, h, i);
      OpenerStaysOpen(lines, h, i);
    }
  }
}
