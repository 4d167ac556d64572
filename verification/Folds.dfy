/** web/src/manifestSyntax.ts, computeFolds, and the manifest panel that hides what is folded. */
module Folds {
  import opened ManifestTokens

  datatype LineMeta = LineMeta(indent: nat, blank: bool, item: bool)
  datatype FoldRegion = FoldRegion(header: nat, end: nat, hiddenCount: nat)

  function MetaOf(text: string): LineMeta {
    var indent := LeadingSpaces(text);
    var t := text[indent..];
    LineMeta(indent, t == "", t == "-" || "- " <= t)
  }

  function MetasOf(texts: seq<string>): (metas: seq<LineMeta>)
    ensures |metas| == |texts| && forall i :: 0 <= i < |texts| ==> metas[i] == MetaOf(texts[i])
  {
    seq(|texts|, i requires 0 <= i < |texts| => MetaOf(texts[i]))
  }

  predicate Inside(m: LineMeta, header: LineMeta) {
    m.indent > header.indent || (m.indent == header.indent && m.item && !header.item)
  }

  /** Line `k`, unless it is blank, belongs to the body of header `i`. */
  predicate Belongs(metas: seq<LineMeta>, i: nat, k: nat)
    requires i < |metas| && k < |metas|
  {
    metas[k].blank || Inside(metas[k], metas[i])
  }

  ghost predicate AllBelong(metas: seq<LineMeta>, i: nat, from: nat, to: nat)
    requires i < |metas| && to <= |metas|
  {
    forall k :: from <= k < to ==> Belongs(metas, i, k)
  }

  /** Nothing after `end` that belongs to `i` can be reached without leaving its body. */
  ghost predicate EndsAt(metas: seq<LineMeta>, i: nat, end: nat)
    requires i < |metas|
  {
    forall e :: end < e < |metas| && !metas[e].blank ==> !AllBelong(metas, i, i + 1, e + 1)
  }

  /** The body of header `i` is the longest run of lines below it that belong to it, without trailing blanks. */
  ghost predicate IsFold(metas: seq<LineMeta>, i: nat, end: nat) {
    && i < end < |metas| && !metas[i].blank && !metas[end].blank
    && AllBelong(metas, i, i + 1, end + 1) && EndsAt(metas, i, end)
  }

  lemma OneEnd(metas: seq<LineMeta>, i: nat, a: nat, b: nat)
    requires IsFold(metas, i, a) && IsFold(metas, i, b)
    ensures a == b
  {
  }

  /** What belongs to a header inside a body belongs to that body's header. */
  lemma InsideIsTransitive(a: LineMeta, b: LineMeta, c: LineMeta)
    requires Inside(a, b) && Inside(b, c)
    ensures Inside(a, c)
  {
  }

  /** Any two folds are nested or disjoint. */
  lemma FoldsAreLaminar(metas: seq<LineMeta>, i: nat, end: nat, j: nat, last: nat)
    requires IsFold(metas, i, end) && IsFold(metas, j, last) && i < j
    ensures end < j || last <= end
  {
    if j <= end {
      assert Belongs(metas, i, j);
      forall k | i + 1 <= k < last + 1 ensures Belongs(metas, i, k) {
        if k > j && !metas[k].blank {
          assert Belongs(metas, j, k);
          InsideIsTransitive(metas[k], metas[j], metas[i]);
        } else if k <= j {
          assert k < end + 1;
        }
      }
      assert AllBelong(metas, i, i + 1, last + 1);
    }
  }

  // ---- finding the folds ----

  /** No line from `j` on gives header `i` a body. */
  lemma NoFold(metas: seq<LineMeta>, i: nat, j: nat)
    requires i < j <= |metas| && forall k :: i < k < j ==> metas[k].blank
    requires j < |metas| ==> !metas[j].blank && !Inside(metas[j], metas[i])
    ensures forall end: nat :: !IsFold(metas, i, end)
  {
    forall end: nat ensures !IsFold(metas, i, end) {
      if i < end < |metas| && !metas[end].blank {
        assert !Belongs(metas, i, j);
      }
    }
  }

  method FindEnd(metas: seq<LineMeta>, i: nat, j: nat) returns (last: nat)
    requires i < j < |metas| && !metas[i].blank && !metas[j].blank && Inside(metas[j], metas[i])
    requires AllBelong(metas, i, i + 1, j)
    ensures IsFold(metas, i, last)
  {
    last := j;
    for k := j to |metas|
      invariant j <= last < |metas| && !metas[last].blank
      invariant k > j ==> last < k
      invariant AllBelong(metas, i, i + 1, last + 1) && AllBelong(metas, i, i + 1, k)
      invariant forall e :: last < e < k ==> metas[e].blank
    {
      if metas[k].blank {
        assert Belongs(metas, i, k);
        continue;
      }
      if !Inside(metas[k], metas[i]) {
        assert !Belongs(metas, i, k);
        break;
      }
      assert Belongs(metas, i, k);
      last := k;
    }
  }

  /** The fold of one header, if it has one. */
  method FoldAt(metas: seq<LineMeta>, i: nat) returns (region: seq<FoldRegion>)
    requires i < |metas|
    ensures |region| <= 1
    ensures |region| == 1 ==>
            IsFold(metas, i, region[0].end) && region[0] == FoldRegion(i, region[0].end, region[0].end - i)
    ensures |region| == 0 ==> forall end: nat :: !IsFold(metas, i, end)
  {
    region := [];
    if metas[i].blank {
      return;
    }
    var j := i + 1;
    while j < |metas| && metas[j].blank
      invariant i < j <= |metas|
      invariant forall k :: i < k < j ==> metas[k].blank
    {
      j := j + 1;
    }
    if j >= |metas| || !Inside(metas[j], metas[i]) {
      NoFold(metas, i, j);
      return;
    }
    var last := FindEnd(metas, i, j);
    if last >= i + 1 {
      region := [FoldRegion(i, last, last - i)];
    }
  }

  ghost predicate HeadersAscend(regions: seq<FoldRegion>) {
    forall a, b :: 0 <= a < b < |regions| ==> regions[a].header < regions[b].header
  }

  ghost predicate IsRegion(metas: seq<LineMeta>, r: FoldRegion) {
    IsFold(metas, r.header, r.end) && r.hiddenCount == r.end - r.header
  }

  /** The regions of the headers before `i`. */
  ghost predicate FoldsBefore(metas: seq<LineMeta>, i: nat, regions: seq<FoldRegion>) {
    HeadersAscend(regions) && forall r :: r in regions <==> IsRegion(metas, r) && r.header < i
  }

  /** All folds and nothing but folds, in the order of their headers. */
  method ComputeFolds(texts: seq<string>) returns (regions: seq<FoldRegion>)
    ensures HeadersAscend(regions)
    ensures forall r :: r in regions <==> IsRegion(MetasOf(texts), r)
  {
    regions := FindFolds(MetasOf(texts));
  }

  method FindFolds(metas: seq<LineMeta>) returns (regions: seq<FoldRegion>)
    ensures HeadersAscend(regions)
    ensures forall r :: r in regions <==> IsRegion(metas, r)
  {
    regions := [];
    for i := 0 to |metas|
      invariant FoldsBefore(metas, i, regions)
    {
      var region := FoldAt(metas, i);
      if |region| == 1 {
        OneMoreRegion(metas, regions, region[0], i);
        regions := regions + [region[0]];
      } else {
        NoMoreRegion(metas, regions, i);
      }
    }
  }

  lemma NoMoreRegion(metas: seq<LineMeta>, regions: seq<FoldRegion>, i: nat)
    requires FoldsBefore(metas, i, regions) && forall end: nat :: !IsFold(metas, i, end)
    ensures FoldsBefore(metas, i + 1, regions)
  {
    forall r ensures r in regions <==> IsRegion(metas, r) && r.header < i + 1 {
      assert !IsFold(metas, i, r.end);
    }
  }

  lemma OneMoreRegion(metas: seq<LineMeta>, regions: seq<FoldRegion>, region: FoldRegion, i: nat)
    requires FoldsBefore(metas, i, regions) && IsRegion(metas, region) && region.header == i
    ensures FoldsBefore(metas, i + 1, regions + [region])
  {
    forall r | IsRegion(metas, r) && r.header == i ensures r == region {
      OneEnd(metas, i, r.end, region.end);
    }
    assert forall k :: 0 <= k < |regions| ==> regions[k] in regions;
  }

  // ---- hiding what is folded ----

  /** Line `k` lies in the body of a collapsed header. */
  ghost predicate Covered(metas: seq<LineMeta>, collapsed: set<nat>, before: nat, k: nat) {
    exists h, end :: h in collapsed && h < before && IsFold(metas, h, end) && h < k <= end
  }

  /** Where the fold of a header ends. */
  ghost predicate FoldMap(metas: seq<LineMeta>, ends: map<nat, nat>) {
    forall h: nat, end: nat :: (h in ends && ends[h] == end) <==> IsFold(metas, h, end)
  }

  ghost predicate MarkedRight(metas: seq<LineMeta>, collapsed: set<nat>, i: nat, marker: int, k: nat) {
    k >= i ==> (k <= marker <==> Covered(metas, collapsed, i, k))
  }

  /** The regions keyed by their header. */
  method FoldByHeader(metas: seq<LineMeta>, regions: seq<FoldRegion>) returns (ends: map<nat, nat>)
    requires forall r :: r in regions <==> IsRegion(metas, r)
    ensures FoldMap(metas, ends)
  {
    ends := map[];
    for i := 0 to |regions|
      invariant forall h: nat :: h in ends ==> IsFold(metas, h, ends[h])
      invariant forall k :: 0 <= k < i ==> regions[k].header in ends
    {
      assert regions[i] in regions;
      ends := ends[regions[i].header := regions[i].end];
    }
    forall h: nat, end: nat ensures (h in ends && ends[h] == end) <==> IsFold(metas, h, end) {
      if IsFold(metas, h, end) {
        assert FoldRegion(h, end, end - h) in regions;
        OneEnd(metas, h, end, ends[h]);
      }
    }
  }

  /** The marker covers, from line `i` on, what the collapsed headers before `i` cover. */
  ghost predicate MarkerExact(metas: seq<LineMeta>, collapsed: set<nat>, i: nat, marker: int) {
    forall k: nat :: MarkedRight(metas, collapsed, i, marker, k)
  }

  lemma MarkerOn(metas: seq<LineMeta>, collapsed: set<nat>, ends: map<nat, nat>, i: nat, marker: int, next: int)
    requires FoldMap(metas, ends) && MarkerExact(metas, collapsed, i, marker)
    requires next == if i in ends && i in collapsed && !(i <= marker) && ends[i] > marker then ends[i] else marker
    ensures MarkerExact(metas, collapsed, i + 1, next)
  {
    var j := i + 1;
    assert next != marker ==> IsFold(metas, i, next);
    forall k: nat ensures MarkedRight(metas, collapsed, j, next, k) {
      assert MarkedRight(metas, collapsed, i, marker, k);
      if k >= j && Covered(metas, collapsed, j, k) {
        CoverStays(metas, collapsed, ends, i, marker, next, k);
      }
    }
  }

  lemma CoverStays(metas: seq<LineMeta>, collapsed: set<nat>, ends: map<nat, nat>, i: nat, marker: int, next: int,
                   k: nat)
    requires FoldMap(metas, ends) && MarkerExact(metas, collapsed, i, marker)
    requires next == if i in ends && i in collapsed && !(i <= marker) && ends[i] > marker then ends[i] else marker
    requires k >= i + 1 && Covered(metas, collapsed, i + 1, k)
    ensures k <= next
  {
    var h, end :| h in collapsed && h < i + 1 && IsFold(metas, h, end) && h < k <= end;
    assert MarkedRight(metas, collapsed, i, marker, k) && MarkedRight(metas, collapsed, i, marker, i);
    if h < i {
      assert Covered(metas, collapsed, i, k);
    } else if i <= marker {
      var g, last :| g in collapsed && g < i && IsFold(metas, g, last) && g < i <= last;
      FoldsAreLaminar(metas, g, last, i, end);
      assert Covered(metas, collapsed, i, k);
    } else {
      assert ends[i] == end;
    }
  }

  /** One furthest-end marker is enough: a row is hidden exactly when some collapsed header's body holds it. */
  method HiddenRows(metas: seq<LineMeta>, ends: map<nat, nat>, collapsed: set<nat>) returns (hidden: seq<bool>)
    requires FoldMap(metas, ends)
    ensures |hidden| == |metas|
    ensures forall k: nat :: k < |metas| ==> (hidden[k] <==> Covered(metas, collapsed, k, k))
  {
    hidden := [];
    var hiddenUntil: int := -1;
    for i := 0 to |metas|
      invariant |hidden| == i
      invariant MarkerExact(metas, collapsed, i, hiddenUntil)
      invariant forall k: nat :: k < i ==> (hidden[k] <==> Covered(metas, collapsed, k, k))
    {
      var isHidden := i <= hiddenUntil;
      var next := hiddenUntil;
      if i in ends && i in collapsed && !isHidden {
        next := if ends[i] > hiddenUntil then ends[i] else hiddenUntil;
      }
      assert MarkedRight(metas, collapsed, i, hiddenUntil, i);
      MarkerOn(metas, collapsed, ends, i, hiddenUntil, next);
      hiddenUntil := next;
      hidden := hidden + [isHidden];
    }
  }

  // ---- what folds, on the texts ----

  lemma {:induction false} SpacesInFront(n: nat, rest: string)
    requires rest == [] || rest[0] != ' '
    ensures LeadingSpaces(Spaces(n) + rest) == n && (Spaces(n) + rest)[n..] == rest
  {
    if n > 0 {
      SpacesInFront(n - 1, rest);
      assert (Spaces(n) + rest)[1..] == Spaces(n - 1) + rest;
      assert (Spaces(n) + rest)[n..] == (Spaces(n) + rest)[1..][n - 1..];
    } else {
      assert Spaces(n) + rest == rest;
    }
  }

  function Spaces(n: nat): (s: string)
    ensures |s| == n
  {
    if n == 0 then [] else [' '] + Spaces(n - 1)
  }

  /** An entry of a sequence is a dash, alone or before a space. */
  lemma MetaOnText(n: nat, rest: string)
    requires rest == [] || rest[0] != ' '
    ensures
      var m := MetaOf(Spaces(n) + rest);
      && m.indent == n && (m.blank <==> |rest| == 0)
      && (m.item <==> |rest| > 0 && rest[0] == '-' && (|rest| == 1 || rest[1] == ' '))
  {
    SpacesInFront(n, rest);
    assert rest == "-" <==> |rest| == 1 && rest[0] == '-';
    assert "- " <= rest <==> |rest| >= 2 && rest[0] == '-' && rest[1] == ' ';
  }

  /** Directly below a header, a line makes it fold when it is deeper, or an entry of a sequence at the indent of a
      header that is none itself; otherwise the header does not fold. */
  lemma NextLineDecides(metas: seq<LineMeta>, i: nat)
    requires i + 1 < |metas| && !metas[i].blank && !metas[i + 1].blank
    ensures (exists end: nat :: IsFold(metas, i, end)) <==>
            || metas[i + 1].indent > metas[i].indent
            || (metas[i + 1].indent == metas[i].indent && metas[i + 1].item && !metas[i].item)
  {
    var header, next := metas[i], metas[i + 1];
    if next.indent > header.indent || (next.indent == header.indent && next.item && !header.item) {
      assert Belongs(metas, i, i + 1);
      SomeFold(metas, i);
    } else {
      NoFold(metas, i, i + 1);
    }
  }

  lemma SomeFold(metas: seq<LineMeta>, i: nat)
    requires i + 1 < |metas| && !metas[i].blank && !metas[i + 1].blank && Belongs(metas, i, i + 1)
    ensures exists end: nat :: IsFold(metas, i, end)
  {
    var end := LongestFrom(metas, i, i + 1);
    assert IsFold(metas, i, end);
  }

  /** The last line of the longest run. */
  lemma {:induction false} LongestFrom(metas: seq<LineMeta>, i: nat, last: nat) returns (end: nat)
    requires i < last < |metas| && !metas[i].blank && !metas[last].blank && AllBelong(metas, i, i + 1, last + 1)
    ensures IsFold(metas, i, end)
    decreases |metas| - last
  {
    if e: nat :| last < e < |metas| && !metas[e].blank && AllBelong(metas, i, i + 1, e + 1) {
      end := LongestFrom(metas, i, e);
    } else {
      end := last;
    }
  }

  /** A fold runs from the line below its header to its last line that is not blank: each line in it is blank, deeper,
      or an entry of the header's own sequence, and the next line that is not blank is none of these. */
  lemma FoldOnFields(metas: seq<LineMeta>, i: nat, end: nat, k: nat)
    requires IsFold(metas, i, end) && k < |metas|
    ensures i < end && !metas[i].blank && !metas[end].blank
    ensures i < k <= end ==>
              || metas[k].blank || metas[k].indent > metas[i].indent
              || (metas[k].indent == metas[i].indent && metas[k].item && !metas[i].item)
    ensures end < k && !metas[k].blank && (forall m :: end < m < k ==> metas[m].blank) ==>
              && metas[k].indent <= metas[i].indent
              && (metas[k].indent == metas[i].indent ==> !metas[k].item || metas[i].item)
  {
    if i < k <= end {
      assert Belongs(metas, i, k);
    }
    if end < k && !metas[k].blank && (forall m :: end < m < k ==> metas[m].blank) && Inside(metas[k], metas[i]) {
      RunReaches(metas, i, end, k);
    }
  }

  lemma RunReaches(metas: seq<LineMeta>, i: nat, end: nat, k: nat)
    requires i < end < k < |metas| && AllBelong(metas, i, i + 1, end + 1) && Inside(metas[k], metas[i])
    requires forall m :: end < m < k ==> metas[m].blank
    ensures AllBelong(metas, i, i + 1, k + 1)
  {
    forall m | i + 1 <= m < k + 1 ensures Belongs(metas, i, m) {
      assert m <= end ==> m < end + 1;
    }
  }
}
