/** slices.Sort and slices.SortFunc: the same elements, in the byte order of their string keys, key by key. */
module Sorting {
  import opened Prelude

  predicate Below(a: string, b: string) {
    a == "" || (b != "" && (a[0] < b[0] || (a[0] == b[0] && Below(a[1..], b[1..]))))
  }

  lemma {:induction false} BelowIsTotal(a: string, b: string)
    ensures Below(a, b) || Below(b, a)
  {
    if a != "" && b != "" && a[0] == b[0] {
      BelowIsTotal(a[1..], b[1..]);
    }
  }

  lemma {:induction false} BelowIsTransitive(a: string, b: string, c: string)
    requires Below(a, b) && Below(b, c)
    ensures Below(a, c)
  {
    if a != "" && a[0] == b[0] == c[0] {
      BelowIsTransitive(a[1..], b[1..], c[1..]);
    }
  }

  lemma {:induction false} BelowIsAntisymmetric(a: string, b: string)
    requires Below(a, b) && Below(b, a)
    ensures a == b
  {
    if a != "" {
      BelowIsAntisymmetric(a[1..], b[1..]);
      assert a == [a[0]] + a[1..] && b == [b[0]] + b[1..];
    }
  }

  /** The order is that of the first characters that differ, a prefix first. */
  lemma {:induction false} BelowAtDifference(a: string, b: string, i: nat)
    requires i <= |a| && i < |b| && a[..i] == b[..i] && (i == |a| || a[i] < b[i])
    ensures Below(a, b) && !Below(b, a)
  {
    if i > 0 {
      assert a[0] == a[..i][0] == b[..i][0] == b[0];
      assert a[1..][..i - 1] == a[..i][1..] && b[1..][..i - 1] == b[..i][1..];
      BelowAtDifference(a[1..], b[1..], i - 1);
    }
  }

  /** cmp.Or over comparisons: the first two keys that differ decide. */
  predicate KeysBelow(a: seq<string>, b: seq<string>) {
    a == [] || (b != [] && if a[0] == b[0] then KeysBelow(a[1..], b[1..]) else Below(a[0], b[0]))
  }

  lemma {:induction false} KeysAreTotal(a: seq<string>, b: seq<string>)
    ensures KeysBelow(a, b) || KeysBelow(b, a)
  {
    if a != [] && b != [] {
      if a[0] == b[0] {
        KeysAreTotal(a[1..], b[1..]);
      } else {
        BelowIsTotal(a[0], b[0]);
      }
    }
  }

  lemma {:induction false} KeysAreTransitive(a: seq<string>, b: seq<string>, c: seq<string>)
    requires KeysBelow(a, b) && KeysBelow(b, c)
    ensures KeysBelow(a, c)
  {
    if a != [] {
      if a[0] == b[0] == c[0] {
        KeysAreTransitive(a[1..], b[1..], c[1..]);
      } else if a[0] != b[0] && b[0] != c[0] {
        BelowIsTransitive(a[0], b[0], c[0]);
        if a[0] == c[0] {
          BelowIsAntisymmetric(a[0], b[0]);
        }
      }
    }
  }

  /** The first keys that differ decide. */
  lemma {:induction false} KeysBelowAtDifference(a: seq<string>, b: seq<string>, i: nat)
    requires i < |a| && i < |b| && a[..i] == b[..i] && a[i] != b[i]
    ensures KeysBelow(a, b) <==> Below(a[i], b[i])
  {
    if i > 0 {
      assert a[0] == a[..i][0] == b[..i][0] == b[0];
      assert a[1..][..i - 1] == a[..i][1..] && b[1..][..i - 1] == b[..i][1..];
      KeysBelowAtDifference(a[1..], b[1..], i - 1);
    }
  }

  lemma FirstKey(a: string, x: seq<string>, b: string, y: seq<string>)
    ensures KeysBelow([a] + x, [b] + y) <==> if a == b then KeysBelow(x, y) else Below(a, b)
  {
    assert ([a] + x)[1..] == x && ([b] + y)[1..] == y;
  }

  lemma TwoKeys(a: string, b: string, x: string, y: string)
    requires KeysBelow([a, b], [x, y])
    ensures Below(a, x) && (a == x ==> Below(b, y))
  {
    assert [a, b] == [a] + [b] && [x, y] == [x] + [y] && [b] == [b] + [] && [y] == [y] + [];
    FirstKey(a, [b], x, [y]);
    FirstKey(b, [], y, []);
    BelowIsTotal(a, a);
    BelowIsTotal(b, b);
  }

  lemma FourKeys(a: string, b: string, c: string, d: string, x: string, y: string, z: string, w: string)
    requires KeysBelow([a, b, c, d], [x, y, z, w])
    ensures Below(a, x)
    ensures a == x ==> Below(b, y)
    ensures a == x && b == y ==> Below(c, z)
    ensures a == x && b == y && c == z ==> Below(d, w)
  {
    assert [a, b, c, d] == [a] + [b, c, d] && [x, y, z, w] == [x] + [y, z, w];
    assert [b, c, d] == [b] + [c, d] && [y, z, w] == [y] + [z, w];
    FirstKey(a, [b, c, d], x, [y, z, w]);
    FirstKey(b, [c, d], y, [z, w]);
    BelowIsTotal(a, a);
    BelowIsTotal(b, b);
    if a == x && b == y {
      TwoKeys(c, d, z, w);
    }
  }

  predicate InKeyOrder<T>(s: seq<T>, key: T -> seq<string>, i: int, j: int) {
    0 <= i < |s| && 0 <= j < |s| ==> KeysBelow(key(s[i]), key(s[j]))
  }

  ghost predicate Ascending<T>(s: seq<T>, key: T -> seq<string>) {
    forall i, j :: i < j ==> InKeyOrder(s, key, i, j)
  }

  function Insert<T>(s: seq<T>, x: T, key: T -> seq<string>): (r: seq<T>)
    ensures multiset(r) == multiset(s) + multiset{x}
    ensures Ascending(s, key) ==> Ascending(r, key)
  {
    if s == [] then [x]
    else if KeysBelow(key(s[|s| - 1]), key(x)) then
      AppendKeepsOrder(s, x, key);
      s + [x]
    else
      var init, last := s[..|s| - 1], s[|s| - 1];
      assert s == init + [last];
      KeysAreTotal(key(last), key(x));
      var r := Insert(init, x, key);
      LastStaysLast(s, x, r, key);
      r + [last]
  }

  lemma AppendKeepsOrder<T>(s: seq<T>, x: T, key: T -> seq<string>)
    requires s != [] && KeysBelow(key(s[|s| - 1]), key(x))
    ensures Ascending(s, key) ==> Ascending(s + [x], key)
  {
    if Ascending(s, key) {
      forall i, j | i < j ensures InKeyOrder(s + [x], key, i, j) {
        assert InKeyOrder(s, key, i, j);
        if 0 <= i < |s| - 1 {
          assert InKeyOrder(s, key, i, |s| - 1);
          KeysAreTransitive(key(s[i]), key(s[|s| - 1]), key(x));
        }
      }
    }
  }

  lemma LastStaysLast<T>(s: seq<T>, x: T, r: seq<T>, key: T -> seq<string>)
    requires s != [] && KeysBelow(key(x), key(s[|s| - 1]))
    requires multiset(r) == multiset(s[..|s| - 1]) + multiset{x}
    requires Ascending(s[..|s| - 1], key) ==> Ascending(r, key)
    ensures Ascending(s, key) ==> Ascending(r + [s[|s| - 1]], key)
  {
    var init, last := s[..|s| - 1], s[|s| - 1];
    if Ascending(s, key) {
      forall i, j | i < j ensures InKeyOrder(init, key, i, j) {
        assert InKeyOrder(s, key, i, j);
      }
      forall y | y in r ensures KeysBelow(key(y), key(last)) {
        assert y in multiset(r);
        if y != x {
          assert y in init;
          var i :| 0 <= i < |init| && init[i] == y;
          assert InKeyOrder(s, key, i, |s| - 1);
        }
      }
      forall i, j | i < j ensures InKeyOrder(r + [last], key, i, j) {
        assert InKeyOrder(r, key, i, j);
      }
    }
  }

  function SortBy<T>(s: seq<T>, key: T -> seq<string>): (r: seq<T>)
    ensures multiset(r) == multiset(s) && Ascending(r, key)
  {
    if s == [] then []
    else
      assert s == s[..|s| - 1] + [s[|s| - 1]];
      Insert(SortBy(s[..|s| - 1], key), s[|s| - 1], key)
  }

  lemma SortKeepsElements<T>(s: seq<T>, key: T -> seq<string>)
    ensures forall x :: x in SortBy(s, key) <==> x in s
    ensures SortBy(s, key) == [] <==> s == []
  {
    var r := SortBy(s, key);
    assert forall x :: x in r <==> x in multiset(r);
    assert forall x :: x in s <==> x in multiset(s);
    assert |multiset(r)| == |r| && |multiset(s)| == |s|;
  }

  lemma SortStaysDistinct<T>(s: seq<T>, key: T -> seq<string>)
    requires Distinct(s)
    ensures Distinct(SortBy(s, key))
  {
    var r := SortBy(s, key);
    forall i, j | 0 <= i < j < |r| ensures r[i] != r[j] {
      if r[i] == r[j] {
        CountedTwice(r, i, j);
        AtMostOnce(s, r[i]);
      }
    }
  }

  lemma CountedTwice<T>(r: seq<T>, i: nat, j: nat)
    requires i < j < |r| && r[i] == r[j]
    ensures multiset(r)[r[i]] >= 2
  {
    assert r == r[..j] + r[j..] && r[i] == r[..j][i] && r[j] == r[j..][0];
    assert multiset(r)[r[i]] == multiset(r[..j])[r[i]] + multiset(r[j..])[r[i]];
  }

  lemma {:induction false} AtMostOnce<T>(s: seq<T>, x: T)
    requires Distinct(s)
    ensures multiset(s)[x] <= 1
  {
    if s != [] {
      var init, last := s[..|s| - 1], s[|s| - 1];
      AtMostOnce(init, x);
      assert s == init + [last] && last !in init;
    }
  }

  /** A string is its own key. */
  function Itself(x: string): seq<string> {
    [x]
  }

  function Sort(s: seq<string>): seq<string> {
    SortBy(s, Itself)
  }
}
