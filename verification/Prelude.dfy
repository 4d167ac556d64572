/** Small vocabulary shared by every module of the project. */
module Prelude {

  datatype Option<+T> = None | Some(value: T)

  /** A map lookup that makes the missing key explicit. */
  function Get<K, V>(m: map<K, V>, k: K): Option<V> {
    if k in m then Some(m[k]) else None
  }

  function Min(a: int, b: int): int {
    if a < b then a else b
  }

  ghost predicate Distinct<T>(s: seq<T>) {
    forall i, j :: 0 <= i < j < |s| ==> s[i] != s[j]
  }

  /** The part of a string before the first separator. */
  function Before(s: string, sep: char): string {
    if s == "" || s[0] == sep then "" else [s[0]] + Before(s[1..], sep)
  }

  lemma {:induction false} BeforeSeparator(a: string, sep: char, rest: string)
    requires sep !in a
    ensures Before(a + [sep] + rest, sep) == a
  {
    if a != "" {
      BeforeSeparator(a[1..], sep, rest);
      assert (a + [sep] + rest)[1..] == a[1..] + [sep] + rest;
    } else {
      assert a + [sep] + rest == [sep] + rest;
    }
  }

  /** A separator-free part and what follows the separator can be read back from the whole. */
  lemma SplitAtSeparator(a: string, b: string, sep: char, x: string, y: string)
    requires sep !in a && sep !in b && a + [sep] + x == b + [sep] + y
    ensures a == b && x == y
  {
    BeforeSeparator(a, sep, x);
    BeforeSeparator(b, sep, y);
    assert (a + [sep] + x)[|a| + 1..] == x;
    assert (b + [sep] + y)[|b| + 1..] == y;
  }

  predicate OccursAt(hay: string, needle: string, p: nat) {
    p <= |hay| && needle <= hay[p..]
  }

  lemma FirstIsIn<T>(s: seq<T>)
    ensures s == [] || s[0] in s
  {
  }

  lemma NoElements<T>(s: seq<T>)
    requires forall x :: x !in s
    ensures s == []
  {
    FirstIsIn(s);
  }
}
