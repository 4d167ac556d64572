/** web/src/capacityLayout.ts, buildCapBar: one bar of a node's pods, drawn to scale. */
module CapacityBar {
  import opened Prelude

  /** The fold threshold and the narrowest segment, in pixels. */
  const CAP_SEG_FOLD: real := 4.0
  const CAP_MIN_SEG: real := 4.0

  datatype Item = Item(id: string, healthy: bool, use: real, req: Option<real>, nearLimit: bool)
  datatype Seg = Seg(item: Item, x: real, width: real)
  datatype Aggregate = Aggregate(count: nat, use: real, req: real, x: real, width: real)

  function Wider(a: real, b: real): real {
    if a < b then b else a
  }

  function UseOf(d: Item): real {
    d.use
  }

  function ReqOf(d: Item): real {
    match d.req
    case Some(r) => r
    case None => 0.0
  }

  // ---- sums and selections ----

  function Sum<T>(items: seq<T>, f: T -> real): real {
    if items == [] then 0.0 else Sum(items[..|items| - 1], f) + f(items[|items| - 1])
  }

  lemma SumPush<T>(items: seq<T>, d: T, f: T -> real)
    ensures Sum(items + [d], f) == Sum(items, f) + f(d)
  {
    assert (items + [d])[..|items|] == items;
  }

  function Pick<T>(items: seq<T>, keep: T -> bool): seq<T> {
    if items == [] then []
    else
      var rest, last := Pick(items[..|items| - 1], keep), items[|items| - 1];
      if keep(last) then rest + [last] else rest
  }

  lemma PickPush<T>(items: seq<T>, d: T, keep: T -> bool)
    ensures Pick(items + [d], keep) == Pick(items, keep) + if keep(d) then [d] else []
  {
    assert (items + [d])[..|items|] == items;
  }

  lemma {:induction false} PickSplitsSum<T>(items: seq<T>, keep: T -> bool, drop: T -> bool, f: T -> real)
    requires forall d :: drop(d) == !keep(d)
    ensures Sum(Pick(items, keep), f) + Sum(Pick(items, drop), f) == Sum(items, f)
  {
    if items != [] {
      var init, last := items[..|items| - 1], items[|items| - 1];
      PickSplitsSum(init, keep, drop, f);
      SumPush(Pick(init, keep), last, f);
      SumPush(Pick(init, drop), last, f);
    }
  }

  lemma {:induction false} PickSplits<T>(items: seq<T>, keep: T -> bool, drop: T -> bool)
    requires forall d :: drop(d) == !keep(d)
    ensures multiset(Pick(items, keep)) + multiset(Pick(items, drop)) == multiset(items)
  {
    if items != [] {
      PickSplits(items[..|items| - 1], keep, drop);
      assert items == items[..|items| - 1] + [items[|items| - 1]];
    }
  }

  lemma {:induction false} PickedAreKept<T>(items: seq<T>, keep: T -> bool)
    ensures forall d :: d in Pick(items, keep) <==> d in items && keep(d)
  {
    if items != [] {
      PickedAreKept(items[..|items| - 1], keep);
      assert items == items[..|items| - 1] + [items[|items| - 1]];
    }
  }

  lemma {:induction false} SumScales<T>(items: seq<T>, f: T -> real, g: T -> real, scale: real)
    requires forall d :: g(d) == f(d) * scale
    ensures Sum(items, g) == Sum(items, f) * scale
  {
    if items != [] {
      SumScales(items[..|items| - 1], f, g, scale);
    }
  }

  // ---- how wide things are ----

  function Size(value: Item -> real, scale: real): Item -> real {
    (d: Item) => value(d) * scale
  }

  function Width(size: Item -> real): Item -> real {
    (d: Item) => Wider(CAP_SEG_FOLD, size(d))
  }

  /** Small, healthy and far from its limit: such pods may fold. */
  function Foldable(size: Item -> real): Item -> bool {
    (d: Item) => size(d) < CAP_SEG_FOLD && d.healthy && !d.nearLimit
  }

  function Unfoldable(size: Item -> real): Item -> bool {
    (d: Item) => !(size(d) < CAP_SEG_FOLD && d.healthy && !d.nearLimit)
  }

  /** Small pods that stay visible whatever their size. */
  function Flagged(size: Item -> real): Item -> bool {
    (d: Item) => size(d) < CAP_SEG_FOLD && (!d.healthy || d.nearLimit)
  }

  ghost predicate NoneNegative(items: seq<Item>, size: Item -> real) {
    forall d :: d in items ==> size(d) >= 0.0
  }

  /** What a pod is short of the narrowest segment. */
  function Short(size: Item -> real): Item -> real {
    (d: Item) => Wider(0.0, CAP_SEG_FOLD - size(d))
  }

  lemma {:induction false} FloorAddsShort(items: seq<Item>, size: Item -> real)
    ensures Sum(items, Width(size)) == Sum(items, size) + Sum(items, Short(size))
  {
    if items != [] {
      FloorAddsShort(items[..|items| - 1], size);
    }
  }

  /** Only tiny pods fall short: those that must stay and those that may fold. */
  lemma {:induction false} OnlyTinyFallShort(items: seq<Item>, size: Item -> real)
    ensures Sum(Pick(items, Unfoldable(size)), Short(size)) == Sum(Pick(items, Flagged(size)), Short(size))
    ensures Sum(items, Short(size))
         == Sum(Pick(items, Flagged(size)), Short(size)) + Sum(Pick(items, Foldable(size)), Short(size))
  {
    if items != [] {
      var init, last := items[..|items| - 1], items[|items| - 1];
      OnlyTinyFallShort(init, size);
      SumPush(Pick(init, Unfoldable(size)), last, Short(size));
      SumPush(Pick(init, Flagged(size)), last, Short(size));
      SumPush(Pick(init, Foldable(size)), last, Short(size));
    }
  }

  lemma {:induction false} ShortAtMost(items: seq<Item>, size: Item -> real)
    requires NoneNegative(items, size)
    ensures 0.0 <= Sum(items, Short(size)) <= CAP_SEG_FOLD * |items| as real
  {
    if items != [] {
      var init, last := items[..|items| - 1], items[|items| - 1];
      assert last in items;
      ShortAtMost(init, size);
    }
  }

  /** The segments that stay on the bar, and those in the fold: two small pods at least, or none. */
  function Kept(items: seq<Item>, size: Item -> real): seq<Item> {
    if |Pick(items, Foldable(size))| >= 2 then Pick(items, Unfoldable(size)) else items
  }

  function Folded(items: seq<Item>, size: Item -> real): seq<Item> {
    if |Pick(items, Foldable(size))| >= 2 then Pick(items, Foldable(size)) else []
  }

  /** How long the bar is drawn. */
  function Drawn(items: seq<Item>, size: Item -> real): real {
    Sum(Kept(items, size), Width(size)) +
    if Folded(items, size) == [] then 0.0 else Wider(CAP_MIN_SEG, Sum(Folded(items, size), size))
  }

  lemma KeptAndFolded(items: seq<Item>, size: Item -> real)
    ensures multiset(Kept(items, size)) + multiset(Folded(items, size)) == multiset(items)
    ensures forall f :: Sum(Kept(items, size), f) + Sum(Folded(items, size), f) == Sum(items, f)
    ensures forall d :: d in Folded(items, size) ==> d.healthy && !d.nearLimit && size(d) < CAP_SEG_FOLD
  {
    PickSplits(items, Unfoldable(size), Foldable(size));
    PickedAreKept(items, Foldable(size));
    forall f ensures Sum(Kept(items, size), f) + Sum(Folded(items, size), f) == Sum(items, f) {
      PickSplitsSum(items, Unfoldable(size), Foldable(size), f);
    }
  }

  /** What the pods that must stay, and then the ones that may fold, are short of the widths they are given. */
  function Shortfall(items: seq<Item>, size: Item -> real): real {
    var small := Pick(items, Foldable(size));
    Sum(Pick(items, Flagged(size)), Short(size)) +
    if |small| >= 2 then Wider(0.0, CAP_MIN_SEG - Sum(small, size)) else Sum(small, Short(size))
  }

  /** The drawn length overshoots the true one by exactly the shortfall; so one minimum width of slack is enough
      exactly when the shortfall is at most that. */
  lemma DrawnOvershoot(items: seq<Item>, size: Item -> real)
    ensures Drawn(items, size) - Sum(items, size) == Shortfall(items, size)
    ensures Drawn(items, size) - Sum(items, size) <= CAP_SEG_FOLD <==> Shortfall(items, size) <= CAP_SEG_FOLD
  {
    var kept, folded := Kept(items, size), Folded(items, size);
    FloorAddsShort(kept, size);
    OnlyTinyFallShort(items, size);
    assert Sum(kept, size) + Sum(folded, size) == Sum(items, size) by {
      KeptAndFolded(items, size);
    }
  }

  /** The drawn length is never short of the true one and at most one minimum width longer,
      plus one for each small pod that must stay visible. */
  lemma DrawnIsFaithful(items: seq<Item>, size: Item -> real)
    requires NoneNegative(items, size)
    ensures 0.0 <= Drawn(items, size) - Sum(items, size) <= CAP_SEG_FOLD * (1 + |Pick(items, Flagged(size))|) as real
  {
    var small, flagged := Pick(items, Foldable(size)), Pick(items, Flagged(size));
    DrawnOvershoot(items, size);
    PickedAreKept(items, Foldable(size));
    PickedAreKept(items, Flagged(size));
    ShortAtMost(flagged, size);
    ShortAtMost(small, size);
    SumIsNotNegative(small, size);
  }

  lemma {:induction false} SumIsNotNegative<T>(items: seq<T>, f: T -> real)
    requires forall d :: d in items ==> f(d) >= 0.0
    ensures Sum(items, f) >= 0.0
  {
    if items != [] {
      assert items[|items| - 1] in items;
      SumIsNotNegative(items[..|items| - 1], f);
    }
  }

  /** `length` pixels show the items' values at `scale`, and what the widths fall short of. */
  ghost predicate Faithful(items: seq<Item>, value: Item -> real, scale: real, length: real) {
    && length == Sum(items, value) * scale + Shortfall(items, Size(value, scale))
    && 0.0 <= length - Sum(items, value) * scale
           <= CAP_SEG_FOLD * (1 + |Pick(items, Flagged(Size(value, scale)))|) as real
  }

  lemma BarIsFaithful(items: seq<Item>, value: Item -> real, scale: real)
    requires NoneNegative(items, Size(value, scale))
    ensures Faithful(items, value, scale, Drawn(items, Size(value, scale)))
  {
    SumScales(items, value, Size(value, scale), scale);
    DrawnOvershoot(items, Size(value, scale));
    DrawnIsFaithful(items, Size(value, scale));
  }

  /** One minimum width of slack would be too little to promise: two failing pods without usage take two. */
  lemma SlackCanExceedOneWidth(a: Item, b: Item, size: Item -> real)
    requires !a.healthy && !b.healthy && size(a) == 0.0 && size(b) == 0.0
    ensures Drawn([a, b], size) - Sum([a, b], size) == 2.0 * CAP_SEG_FOLD
  {
    assert [a, b] == [a] + [b] && [a] == [] + [a];
    SumPush([a], b, size);
    SumPush([], a, size);
    SumPush([a], b, Width(size));
    SumPush([], a, Width(size));
    PickPush([a], b, Foldable(size));
    PickPush([], a, Foldable(size));
  }

  // ---- laying a bar ----

  /** Segments end to end from `x0`, one for each item, none narrower than the minimum. */
  ghost predicate Laid(segs: seq<Seg>, items: seq<Item>, size: Item -> real, x0: real) {
    && |segs| == |items|
    && forall k :: 0 <= k < |segs| ==> IsLaid(segs[k], items, k, size, x0)
  }

  ghost predicate IsLaid(s: Seg, items: seq<Item>, k: nat, size: Item -> real, x0: real)
    requires k < |items|
  {
    s == Seg(items[k], x0 + Sum(items[..k], Width(size)), Width(size)(items[k]))
  }

  lemma LayOne(segs: seq<Seg>, items: seq<Item>, size: Item -> real, x0: real, d: Item)
    requires Laid(segs, items, size, x0)
    ensures Laid(segs + [Seg(d, x0 + Sum(items, Width(size)), Width(size)(d))], items + [d], size, x0)
    ensures Sum(items + [d], Width(size)) == Sum(items, Width(size)) + Width(size)(d)
  {
    var more := segs + [Seg(d, x0 + Sum(items, Width(size)), Width(size)(d))];
    SumPush(items, d, Width(size));
    forall k | 0 <= k < |more| ensures IsLaid(more[k], items + [d], k, size, x0) {
      assert (items + [d])[..k] == items[..k];
      assert k < |segs| ==> IsLaid(segs[k], items, k, size, x0);
      assert items[..|items|] == items;
    }
  }

  method SelectSmall(items: seq<Item>, size: Item -> real) returns (small: seq<Item>)
    ensures small == Pick(items, Foldable(size))
  {
    small := [];
    for i := 0 to |items|
      invariant small == Pick(items[..i], Foldable(size))
    {
      assert items[..i + 1] == items[..i] + [items[i]];
      PickPush(items[..i], items[i], Foldable(size));
      if size(items[i]) < CAP_SEG_FOLD && items[i].healthy && !items[i].nearLimit {
        small := small + [items[i]];
      }
    }
    assert items[..|items|] == items;
  }

  method Total<T>(items: seq<T>, f: T -> real) returns (sum: real)
    ensures sum == Sum(items, f)
  {
    sum := 0.0;
    for i := 0 to |items|
      invariant sum == Sum(items[..i], f)
    {
      assert items[..i + 1] == items[..i] + [items[i]];
      SumPush(items[..i], items[i], f);
      sum := sum + f(items[i]);
    }
    assert items[..|items|] == items;
  }

  function Stays(size: Item -> real, fold: bool): Item -> bool {
    (d: Item) => !(fold && size(d) < CAP_SEG_FOLD && d.healthy && !d.nearLimit)
  }

  function Goes(size: Item -> real, fold: bool): Item -> bool {
    (d: Item) => fold && size(d) < CAP_SEG_FOLD && d.healthy && !d.nearLimit
  }

  /** What has been laid of the items so far. */
  ghost predicate LaidSoFar(items: seq<Item>, size: Item -> real, x0: real, fold: bool, segs: seq<Seg>,
                            folded: seq<Item>, x: real)
  {
    && Laid(segs, Pick(items, Stays(size, fold)), size, x0)
    && folded == Pick(items, Goes(size, fold))
    && x == x0 + Sum(Pick(items, Stays(size, fold)), Width(size))
  }

  lemma FoldNext(items: seq<Item>, size: Item -> real, x0: real, fold: bool, segs: seq<Seg>, folded: seq<Item>,
                 x: real, d: Item)
    requires LaidSoFar(items, size, x0, fold, segs, folded, x) && Goes(size, fold)(d)
    ensures LaidSoFar(items + [d], size, x0, fold, segs, folded + [d], x)
  {
    PickPush(items, d, Stays(size, fold));
    PickPush(items, d, Goes(size, fold));
  }

  lemma LayNext(items: seq<Item>, size: Item -> real, x0: real, fold: bool, segs: seq<Seg>, folded: seq<Item>,
                x: real, d: Item)
    requires LaidSoFar(items, size, x0, fold, segs, folded, x) && Stays(size, fold)(d)
    ensures LaidSoFar(items + [d], size, x0, fold, segs + [Seg(d, x, Width(size)(d))], folded, x + Width(size)(d))
  {
    var kept := Pick(items, Stays(size, fold));
    PickPush(items, d, Stays(size, fold));
    PickPush(items, d, Goes(size, fold));
    assert Pick(items + [d], Stays(size, fold)) == kept + [d];
    assert !Goes(size, fold)(d) && Pick(items + [d], Goes(size, fold)) == folded;
    LayOne(segs, kept, size, x0, d);
  }

  method LaySegments(items: seq<Item>, size: Item -> real, x0: real, fold: bool)
    returns (segs: seq<Seg>, folded: seq<Item>, x: real)
    ensures LaidSoFar(items, size, x0, fold, segs, folded, x)
  {
    segs, folded, x := [], [], x0;
    for i := 0 to |items|
      invariant LaidSoFar(items[..i], size, x0, fold, segs, folded, x)
    {
      var d := items[i];
      assert items[..i + 1] == items[..i] + [d];
      if fold && size(d) < CAP_SEG_FOLD && d.healthy && !d.nearLimit {
        FoldNext(items[..i], size, x0, fold, segs, folded, x, d);
        folded := folded + [d];
        continue;
      }
      LayNext(items[..i], size, x0, fold, segs, folded, x, d);
      var width := Wider(CAP_SEG_FOLD, size(d));
      segs := segs + [Seg(d, x, width)];
      x := x + width;
    }
    assert items[..|items|] == items;
  }

  lemma {:induction false} SamePick<T>(items: seq<T>, p: T -> bool, q: T -> bool)
    requires forall d :: p(d) == q(d)
    ensures Pick(items, p) == Pick(items, q)
  {
    if items != [] {
      SamePick(items[..|items| - 1], p, q);
    }
  }

  lemma {:induction false} PickAll<T>(items: seq<T>, p: T -> bool, q: T -> bool)
    requires forall d :: p(d) && !q(d)
    ensures Pick(items, p) == items && Pick(items, q) == []
  {
    if items != [] {
      PickAll(items[..|items| - 1], p, q);
      assert items == items[..|items| - 1] + [items[|items| - 1]];
    }
  }

  lemma StaysIsKept(items: seq<Item>, size: Item -> real, fold: bool)
    requires fold == (|Pick(items, Foldable(size))| >= 2)
    ensures Pick(items, Stays(size, fold)) == Kept(items, size) && Pick(items, Goes(size, fold)) == Folded(items, size)
  {
    if fold {
      SamePick(items, Stays(size, fold), Unfoldable(size));
      SamePick(items, Goes(size, fold), Foldable(size));
    } else {
      PickAll(items, Stays(size, fold), Goes(size, fold));
    }
  }

  /** The folded pods as one block at `x`. */
  method FoldBlock(folded: seq<Item>, value: Item -> real, scale: real, x: real) returns (block: Aggregate)
    ensures IsFoldBlock(block, folded, Size(value, scale), x)
  {
    var sumV := Total(folded, value);
    var use := Total(folded, UseOf);
    var req := Total(folded, ReqOf);
    var px := sumV * scale;
    assert px == Sum(folded, Size(value, scale)) by {
      SumScales(folded, value, Size(value, scale), scale);
    }
    block := Aggregate(|folded|, use, req, x, Wider(CAP_MIN_SEG, px));
  }

  ghost predicate IsFoldBlock(block: Aggregate, folded: seq<Item>, size: Item -> real, x: real) {
    block == Aggregate(|folded|, Sum(folded, UseOf), Sum(folded, ReqOf), x, Wider(CAP_MIN_SEG, Sum(folded, size)))
  }

  /** A bar tiled from `x0`: the kept pods' segments in order, then one block for the folded. */
  ghost predicate IsBar(items: seq<Item>, size: Item -> real, x0: real, segs: seq<Seg>, small: Option<Aggregate>,
                        endX: real)
  {
    && Laid(segs, Kept(items, size), size, x0)
    && (small.Some? <==> Folded(items, size) != [])
    && (small.Some? ==> IsFoldBlock(small.value, Folded(items, size), size, x0 + Sum(Kept(items, size), Width(size))))
    && endX == x0 + Drawn(items, size)
  }

  lemma BarWithoutFold(items: seq<Item>, size: Item -> real, x0: real, segs: seq<Seg>, x: real)
    requires |Pick(items, Foldable(size))| < 2 && LaidSoFar(items, size, x0, false, segs, [], x)
    ensures IsBar(items, size, x0, segs, None, x) && Folded(items, size) == []
  {
    StaysIsKept(items, size, false);
  }

  lemma BarWithFold(items: seq<Item>, size: Item -> real, x0: real, segs: seq<Seg>, folded: seq<Item>, x: real,
                    block: Aggregate)
    requires |Pick(items, Foldable(size))| >= 2 && LaidSoFar(items, size, x0, true, segs, folded, x)
    requires IsFoldBlock(block, Pick(items, Foldable(size)), size, x)
    ensures IsBar(items, size, x0, segs, Some(block), x + block.width) && folded == Folded(items, size)
  {
    StaysIsKept(items, size, true);
  }

  method LayBar(items: seq<Item>, value: Item -> real, scale: real, x0: real)
    returns (segs: seq<Seg>, small: Option<Aggregate>, folded: seq<Item>, endX: real)
    ensures IsBar(items, Size(value, scale), x0, segs, small, endX)
    ensures folded == Folded(items, Size(value, scale))
  {
    var size := Size(value, scale);
    var smallItems := SelectSmall(items, size);
    var fold := |smallItems| >= 2;
    segs, folded, endX := LaySegments(items, size, x0, fold);
    small := None;
    if fold {
      var block := FoldBlock(smallItems, value, scale, endX);
      BarWithFold(items, size, x0, segs, folded, endX, block);
      small, endX := Some(block), endX + block.width;
    } else {
      NothingGoes(items, size);
      BarWithoutFold(items, size, x0, segs, endX);
    }
  }

  lemma NothingGoes(items: seq<Item>, size: Item -> real)
    ensures Pick(items, Goes(size, false)) == []
  {
    PickAll(items, Stays(size, false), Goes(size, false));
  }

  /** The bar ends where the scaled sum says, give or take the minimum widths it had to add. */
  method BuildCapBar(items: seq<Item>, value: Item -> real, scale: real, x0: real)
    returns (segs: seq<Seg>, small: Option<Aggregate>, folded: seq<Item>, endX: real)
    requires NoneNegative(items, Size(value, scale))
    ensures IsBar(items, Size(value, scale), x0, segs, small, endX)
    ensures folded == Folded(items, Size(value, scale))
    ensures Faithful(items, value, scale, endX - x0)
  {
    segs, small, folded, endX := LayBar(items, value, scale, x0);
    BarIsFaithful(items, value, scale);
  }

  // ---- a bar on the fields ----

  /** How far the first `k` segments reach. */
  function EndOf(segs: seq<Seg>, k: nat, x0: real): real
    requires k <= |segs|
  {
    if k == 0 then x0 else segs[k - 1].x + segs[k - 1].width
  }

  lemma LaidReaches(segs: seq<Seg>, items: seq<Item>, size: Item -> real, x0: real, k: nat)
    requires Laid(segs, items, size, x0) && k <= |segs|
    ensures EndOf(segs, k, x0) == x0 + Sum(items[..k], Width(size))
  {
    if k > 0 {
      assert IsLaid(segs[k - 1], items, k - 1, size, x0);
      assert items[..k] == items[..k - 1] + [items[k - 1]];
      SumPush(items[..k - 1], items[k - 1], Width(size));
    }
  }

  /** Every segment begins where the one before it ends, is as wide as its value and no narrower than 4 pixels; the
      block of the folded follows the last one. */
  lemma BarIsTiled(items: seq<Item>, size: Item -> real, x0: real, segs: seq<Seg>, small: Option<Aggregate>, endX: real)
    requires IsBar(items, size, x0, segs, small, endX)
    ensures forall k :: 0 <= k < |segs| ==> segs[k].x == EndOf(segs, k, x0)
    ensures forall k :: 0 <= k < |segs| ==>
              segs[k].width == if size(segs[k].item) < 4.0 then 4.0 else size(segs[k].item)
    ensures small.None? ==> endX == EndOf(segs, |segs|, x0)
    ensures small.Some? ==> small.value.x == EndOf(segs, |segs|, x0) && endX == small.value.x + small.value.width
    ensures small.Some? ==>
              small.value.width == if Sum(Folded(items, size), size) < 4.0 then 4.0 else Sum(Folded(items, size), size)
  {
    var kept := Kept(items, size);
    forall k | 0 <= k < |segs|
      ensures segs[k].x == EndOf(segs, k, x0)
      ensures segs[k].width == if size(segs[k].item) < 4.0 then 4.0 else size(segs[k].item)
    {
      LaidReaches(segs, kept, size, x0, k);
      assert IsLaid(segs[k], kept, k, size, x0);
    }
    LaidReaches(segs, kept, size, x0, |segs|);
    assert kept[..|segs|] == kept;
  }

  /** A pod that may fold: small, healthy and far from its limit. */
  predicate MayFold(d: Item, size: Item -> real) {
    size(d) < 4.0 && d.healthy && !d.nearLimit
  }

  /** Two such pods or more fold, all of them; one alone stays. */
  lemma FoldsTogether(items: seq<Item>, size: Item -> real)
    ensures |Folded(items, size)| != 1
    ensures |Folded(items, size)| > 1 ==> forall d :: d in Kept(items, size) <==> d in items && !MayFold(d, size)
    ensures |Folded(items, size)| > 1 ==> forall d :: d in Folded(items, size) <==> d in items && MayFold(d, size)
    ensures |Folded(items, size)| == 0 ==>
              && Kept(items, size) == items
              && forall i, j :: 0 <= i < j < |items| ==> !MayFold(items[i], size) || !MayFold(items[j], size)
  {
    PickedAreKept(items, Unfoldable(size));
    PickedAreKept(items, Foldable(size));
    if |Folded(items, size)| == 0 {
      forall i, j | 0 <= i < j < |items| && MayFold(items[i], size) ensures !MayFold(items[j], size) {
        TwoPicked(items, Foldable(size), i, j);
      }
    }
  }

  lemma {:induction false} TwoPicked<T>(items: seq<T>, keep: T -> bool, i: nat, j: nat)
    requires i < j < |items|
    ensures keep(items[i]) ==> |Pick(items, keep)| >= 1
    ensures keep(items[i]) && keep(items[j]) ==> |Pick(items, keep)| >= 2
  {
    var init := items[..|items| - 1];
    if j < |items| - 1 {
      TwoPicked(init, keep, i, j);
    } else {
      PickedAreKept(init, keep);
      assert init[i] in init;
    }
  }

  lemma {:induction false} SumAlike<T>(items: seq<T>, f: T -> real, g: T -> real)
    requires forall d :: d in items ==> f(d) == g(d)
    ensures Sum(items, f) == Sum(items, g)
  {
    if items != [] {
      assert items[|items| - 1] in items;
      SumAlike(items[..|items| - 1], f, g);
    }
  }

  /** The block counts the folded pods and adds up their use and their requests, unset ones as none. */
  lemma BlockAddsUp(block: Aggregate, folded: seq<Item>, size: Item -> real, x: real, use: Item -> real,
                    req: Item -> real)
    requires IsFoldBlock(block, folded, size, x)
    requires forall d: Item :: use(d) == d.use && req(d) == if d.req.Some? then d.req.value else 0.0
    ensures block.count == |folded| && block.use == Sum(folded, use) && block.req == Sum(folded, req)
  {
    SumAlike(folded, UseOf, use);
    SumAlike(folded, ReqOf, req);
  }
}
