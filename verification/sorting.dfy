/** The two orderings the dashboard applies with `Array.prototype.sort`: a
    stable sort by a numeric key (timestamps, word counts, numeric answers)
    and a sort of distinct strings by the string order. */
module Sorting {
  import opened Text
  import opened Collections

  ghost predicate SortedBy<T>(s: seq<T>, key: T -> int) {
    forall i, j :: 0 <= i < j < |s| ==> key(s[i]) <= key(s[j])
  }

  ghost predicate KeysAtLeast<T>(s: seq<T>, key: T -> int, b: int) {
    forall i :: 0 <= i < |s| ==> b <= key(s[i])
  }

  /** The elements of `s` whose key is `v`, in their order in `s`. */
  function WithKey<T>(s: seq<T>, key: T -> int, v: int): seq<T> {
    if s == [] then [] else (if key(s[0]) == v then [s[0]] else []) + WithKey(s[1..], key, v)
  }

  /** Places `x` before the first element whose key is not smaller. */
  function InsertBy<T>(x: T, s: seq<T>, key: T -> int): (r: seq<T>)
    ensures multiset(r) == multiset(s) + multiset{x}
  {
    if s == [] || key(x) <= key(s[0]) then [x] + s
    else
      assert s == [s[0]] + s[1..];
      [s[0]] + InsertBy(x, s[1..], key)
  }

  /** A stable sort, ascending by `key`, as `Array.prototype.sort` with the
      comparator `(a, b) => key(a) - key(b)`; the result is a permutation. */
  function SortBy<T>(s: seq<T>, key: T -> int): (r: seq<T>)
    ensures multiset(r) == multiset(s)
  {
    if s == [] then []
    else
      assert s == [s[0]] + s[1..];
      InsertBy(s[0], SortBy(s[1..], key), key)
  }

  lemma {:induction false} InsertByBound<T>(x: T, s: seq<T>, key: T -> int, b: int)
    requires KeysAtLeast(s, key, b) && b <= key(x)
    ensures KeysAtLeast(InsertBy(x, s, key), key, b)
  {
    if s != [] && key(x) > key(s[0]) {
      InsertByBound(x, s[1..], key, b);
    }
  }

  lemma {:induction false} InsertBySorted<T>(x: T, s: seq<T>, key: T -> int)
    requires SortedBy(s, key)
    ensures SortedBy(InsertBy(x, s, key), key)
  {
    if s != [] && key(x) > key(s[0]) {
      InsertBySorted(x, s[1..], key);
      InsertByBound(x, s[1..], key, key(s[0]));
      assert InsertBy(x, s, key) == [s[0]] + InsertBy(x, s[1..], key);
    }
  }

  /** The result of `SortBy` is in ascending key order. */
  lemma {:induction false} SortBySorted<T>(s: seq<T>, key: T -> int)
    ensures SortedBy(SortBy(s, key), key)
  {
    if s != [] {
      SortBySorted(s[1..], key);
      InsertBySorted(s[0], SortBy(s[1..], key), key);
    }
  }

  lemma {:induction false} InsertByStable<T>(x: T, s: seq<T>, key: T -> int, v: int)
    ensures WithKey(InsertBy(x, s, key), key, v)
         == (if key(x) == v then [x] else []) + WithKey(s, key, v)
  {
    if s == [] || key(x) <= key(s[0]) {
      assert ([x] + s)[1..] == s;
    } else {
      var t := InsertBy(x, s[1..], key);
      var r := InsertBy(x, s, key);
      assert r == [s[0]] + t;
      assert r[0] == s[0] && r[1..] == t;
      InsertByStable(x, s[1..], key, v);
      var h := if key(s[0]) == v then [s[0]] else [];
      assert WithKey(r, key, v) == h + WithKey(t, key, v);
      assert WithKey(s, key, v) == h + WithKey(s[1..], key, v);
      // `x` and `s[0]` have different keys, so at most one of them is kept.
      if key(x) == v {
        assert h == [];
      } else {
        assert WithKey(t, key, v) == WithKey(s[1..], key, v);
      }
    }
  }

  /** Stability: among elements with equal keys the input order is kept. */
  lemma {:induction false} SortByStable<T>(s: seq<T>, key: T -> int, v: int)
    ensures WithKey(SortBy(s, key), key, v) == WithKey(s, key, v)
  {
    if s != [] {
      SortByStable(s[1..], key, v);
      InsertByStable(s[0], SortBy(s[1..], key), key, v);
    }
  }

  function Id(x: int): int { x }

  /** Two ascending integer sequences holding the same values are equal: the
      sorted copy of a sequence depends only on its multiset of values. */
  ghost predicate Ascending(a: seq<int>) {
    forall i, j :: 0 <= i < j < |a| ==> a[i] <= a[j]
  }

  lemma AscendingById(a: seq<int>)
    requires SortedBy(a, Id)
    ensures Ascending(a)
  {
    forall i, j | 0 <= i < j < |a| ensures a[i] <= a[j] {
      assert Id(a[i]) <= Id(a[j]);
    }
  }

  lemma TailMultiset(a: seq<int>)
    requires a != []
    ensures multiset(a[1..]) == multiset(a) - multiset{a[0]}
  {
    assert a == [a[0]] + a[1..];
  }

  /** Two ascending sequences with the same multiset of values are equal. */
  lemma {:induction false} SortedUnique(a: seq<int>, b: seq<int>)
    requires Ascending(a) && Ascending(b) && multiset(a) == multiset(b)
    ensures a == b
  {
    assert |a| == |multiset(a)| == |multiset(b)| == |b|;
    if a != [] {
      assert a[0] in multiset(b) && b[0] in multiset(a);
      assert a[0] == b[0];
      TailMultiset(a);
      TailMultiset(b);
      SortedUnique(a[1..], b[1..]);
      assert a == [a[0]] + a[1..] && b == [b[0]] + b[1..];
    }
  }

  ghost predicate StrSorted(s: seq<string>) {
    forall i, j :: 0 <= i < j < |s| ==> !StrLt(s[j], s[i])
  }

  ghost predicate StrAtLeast(s: seq<string>, b: string) {
    forall i :: 0 <= i < |s| ==> !StrLt(s[i], b)
  }

  lemma StrLeTransitive(a: string, b: string, c: string)
    requires !StrLt(b, a) && !StrLt(c, b)
    ensures !StrLt(c, a)
  {
    if a != b && b != c {
      StrLtTotal(a, b);
      StrLtTotal(b, c);
      StrLtTransitive(a, b, c);
      StrLtAsymmetric(a, c);
    }
  }

  function InsertStr(x: string, s: seq<string>): (r: seq<string>)
    ensures multiset(r) == multiset(s) + multiset{x}
  {
    if s == [] || !StrLt(s[0], x) then [x] + s
    else
      assert s == [s[0]] + s[1..];
      [s[0]] + InsertStr(x, s[1..])
  }

  /** `keys.sort((a, b) => (a > b ? 1 : -1))`; with distinct keys this
      comparator is consistent, and the result is a permutation. */
  function SortStrings(s: seq<string>): (r: seq<string>)
    ensures multiset(r) == multiset(s)
  {
    if s == [] then []
    else
      assert s == [s[0]] + s[1..];
      InsertStr(s[0], SortStrings(s[1..]))
  }

  lemma {:induction false} InsertStrBound(x: string, s: seq<string>, b: string)
    requires StrAtLeast(s, b) && !StrLt(x, b)
    ensures StrAtLeast(InsertStr(x, s), b)
  {
    if s != [] && StrLt(s[0], x) {
      InsertStrBound(x, s[1..], b);
    }
  }

  lemma {:induction false} InsertStrSorted(x: string, s: seq<string>)
    requires StrSorted(s)
    ensures StrSorted(InsertStr(x, s))
  {
    if s == [] || !StrLt(s[0], x) {
      forall j | 0 < j < |s| ensures !StrLt(s[j], x) {
        StrLeTransitive(x, s[0], s[j]);
      }
    } else {
      InsertStrSorted(x, s[1..]);
      StrLtAsymmetric(s[0], x);
      InsertStrBound(x, s[1..], s[0]);
      assert InsertStr(x, s) == [s[0]] + InsertStr(x, s[1..]);
    }
  }

  lemma {:induction false} SortStringsSorted(s: seq<string>)
    ensures StrSorted(SortStrings(s))
  {
    if s != [] {
      SortStringsSorted(s[1..]);
      InsertStrSorted(s[0], SortStrings(s[1..]));
    }
  }

  /** Sorting distinct strings gives a strictly ascending sequence holding
      the same strings. */
  lemma SortStringsStrict(s: seq<string>)
    requires NoDuplicates(s)
    ensures NoDuplicates(SortStrings(s))
    ensures forall i, j :: 0 <= i < j < |SortStrings(s)| ==> StrLt(SortStrings(s)[i], SortStrings(s)[j])
    ensures forall k :: k in SortStrings(s) <==> k in s
  {
    var r := SortStrings(s);
    SortStringsSorted(s);
    NoDuplicatesPermutation(s, r);
    forall i, j | 0 <= i < j < |r| ensures StrLt(r[i], r[j]) {
      StrLtTotal(r[i], r[j]);
    }
    forall k ensures k in r <==> k in s {
      assert k in r <==> k in multiset(r);
      assert k in s <==> k in multiset(s);
    }
  }
}
