/** Insertion-ordered maps (JavaScript `Map`, and plain objects used as
    dictionaries), first-occurrence de-duplication and occurrence counting,
    with the facts about them that the aggregation relies on. */
module Collections {
  import opened Wrappers

  predicate NoDuplicates<K(==,!new)>(s: seq<K>) {
    forall i, j :: 0 <= i < j < |s| ==> s[i] != s[j]
  }

  /** A JavaScript `Map`: lookups by key, iteration in first-insertion order. */
  datatype OrderedMap<K(==,!new), V> = OrderedMap(keys: seq<K>, entries: map<K, V>) {

    ghost predicate Valid() {
      && NoDuplicates(keys)
      && (forall k :: k in entries <==> k in keys)
    }

    /** `m.get(k)`, `undefined` when the key is absent. */
    function Get(k: K): Option<V> {
      if k in entries then Some(entries[k]) else None
    }

    /** `m.set(k, v)`: a present key keeps its position and takes the new
        value; an absent key is appended. */
    function Set(k: K, v: V): (m: OrderedMap<K, V>)
      requires Valid()
      ensures m.Valid()
      ensures m.entries == entries[k := v]
      ensures k in entries ==> m.keys == keys
      ensures k !in entries ==> m.keys == keys + [k]
    {
      OrderedMap(if k in entries then keys else keys + [k], entries[k := v])
    }
  }

  function EmptyMap<K(==,!new), V>(): (m: OrderedMap<K, V>)
    ensures m.Valid()
  {
    OrderedMap([], map[])
  }

  /** The elements of `s` without repetition, in order of first occurrence. */
  function Distinct<K(==,!new)>(s: seq<K>): (d: seq<K>)
    ensures NoDuplicates(d)
    ensures forall k :: k in d <==> k in s
  {
    if s == [] then []
    else
      var d := Distinct(s[..|s| - 1]);
      if s[|s| - 1] in s[..|s| - 1] then d else d + [s[|s| - 1]]
  }

  /** Appending an element adds it to the distinct elements unless it
      was already there. */
  lemma DistinctSnoc<K(!new)>(s: seq<K>, x: K)
    ensures Distinct(s + [x]) == if x in s then Distinct(s) else Distinct(s) + [x]
  {
    assert (s + [x])[..|s|] == s;
  }

  /** `m.set(k, (m.get(k) ?? 0) + 1)` */
  function Increment<K(==,!new)>(m: OrderedMap<K, nat>, k: K): (r: OrderedMap<K, nat>)
    requires m.Valid()
    ensures r.Valid()
  {
    m.Set(k, m.Get(k).GetOr(0) + 1)
  }

  /** The counter map left by incrementing once per element of `s`, in order. */
  function Tally<K(==,!new)>(s: seq<K>): (m: OrderedMap<K, nat>)
    ensures m.Valid()
    ensures m.keys == Distinct(s)
    ensures forall k :: k in m.entries ==> m.entries[k] == multiset(s)[k]
  {
    if s == [] then EmptyMap()
    else
      var p, x := s[..|s| - 1], s[|s| - 1];
      assert s == p + [x];
      Increment(Tally(p), x)
  }

  /** The elements of `ks` that are not in `excluded`, in order. */
  function Without<K(==,!new)>(ks: seq<K>, excluded: seq<K>): (r: seq<K>)
    ensures forall k :: k in r <==> k in ks && k !in excluded
    ensures NoDuplicates(ks) ==> NoDuplicates(r)
  {
    if ks == [] then []
    else
      var r := Without(ks[..|ks| - 1], excluded);
      if ks[|ks| - 1] in excluded then r else r + [ks[|ks| - 1]]
  }

  /** The number of elements of `s` that equal some key of `ds`, one key at
      a time. */
  function SumCounts<K(==,!new)>(ds: seq<K>, s: seq<K>): nat {
    if ds == [] then 0 else SumCounts(ds[..|ds| - 1], s) + multiset(s)[ds[|ds| - 1]]
  }

  lemma {:induction false} SumCountsConcat<K(!new)>(a: seq<K>, b: seq<K>, s: seq<K>)
    ensures SumCounts(a + b, s) == SumCounts(a, s) + SumCounts(b, s)
  {
    if b == [] {
      assert a + b == a;
    } else {
      assert (a + b)[..|a + b| - 1] == a + b[..|b| - 1];
      assert (a + b)[|a + b| - 1] == b[|b| - 1];
      SumCountsConcat(a, b[..|b| - 1], s);
    }
  }

  /** Adding one element `x` to `s` raises the sum over distinct keys by one
      exactly when `x` is one of the keys. */
  lemma {:induction false} SumCountsSnoc<K(!new)>(ds: seq<K>, s: seq<K>, x: K)
    requires NoDuplicates(ds)
    ensures SumCounts(ds, s + [x]) == SumCounts(ds, s) + (if x in ds then 1 else 0)
  {
    if ds != [] {
      var p := ds[..|ds| - 1];
      assert x in ds <==> x in p || x == ds[|ds| - 1];
      assert ds[|ds| - 1] !in p;
      SumCountsSnoc(p, s, x);
    }
  }

  /** The last element of `a` sits somewhere in its permutation `b`, and
      what is left of both is again a permutation. */
  lemma PermutationStep<K>(a: seq<K>, b: seq<K>) returns (j: nat)
    requires a != [] && multiset(a) == multiset(b)
    ensures j < |b| && b[j] == a[|a| - 1]
    ensures b == b[..j] + [b[j]] + b[j + 1..]
    ensures multiset(a[..|a| - 1]) == multiset(b[..j] + b[j + 1..])
  {
    var x := a[|a| - 1];
    assert a == a[..|a| - 1] + [x];
    assert x in multiset(b);
    j :| 0 <= j < |b| && b[j] == x;
    var rest := b[..j] + b[j + 1..];
    assert b == b[..j] + [x] + b[j + 1..];
    assert multiset(b) == multiset(rest) + multiset{x};
    assert multiset(a) == multiset(a[..|a| - 1]) + multiset{x};
    assert multiset(a[..|a| - 1]) == multiset(a) - multiset{x};
    assert multiset(rest) == multiset(b) - multiset{x};
  }

  /** Reordering the keys does not change the sum. */
  lemma {:induction false} SumCountsPermutation<K(!new)>(a: seq<K>, b: seq<K>, s: seq<K>)
    requires multiset(a) == multiset(b)
    ensures SumCounts(a, s) == SumCounts(b, s)
  {
    if a != [] {
      var j := PermutationStep(a, b);
      SumCountsPermutation(a[..|a| - 1], b[..j] + b[j + 1..], s);
      SumCountsMiddle(b[..j], b[j], b[j + 1..], s);
    }
  }

  lemma SumCountsMiddle<K(!new)>(x: seq<K>, m: K, y: seq<K>, s: seq<K>)
    ensures SumCounts(x + [m] + y, s) == SumCounts(x + y, s) + multiset(s)[m]
  {
    SumCountsConcat(x + [m], y, s);
    SumCountsConcat(x, y, s);
    assert (x + [m])[..|x|] == x;
  }

  lemma {:induction false} SumCountsOfNothing<K(!new)>(ds: seq<K>)
    ensures SumCounts(ds, []) == 0
  {
    if ds != [] {
      SumCountsOfNothing(ds[..|ds| - 1]);
    }
  }

  /** Every element of `s` is counted exactly once by the listed keys
      `declared` (distinct) plus the keys of `s` not among them. */
  lemma {:induction false} PartitionCounts<K(!new)>(declared: seq<K>, s: seq<K>)
    requires NoDuplicates(declared)
    ensures SumCounts(declared, s) + SumCounts(Without(Distinct(s), declared), s) == |s|
  {
    if s == [] {
      SumCountsOfNothing(declared);
    } else {
      var p, x := s[..|s| - 1], s[|s| - 1];
      assert s == p + [x];
      PartitionCounts(declared, p);
      PartitionSnoc(declared, s, p, x);
    }
  }

  /** The inductive step of `PartitionCounts`: one more element `x`. */
  lemma {:induction false} PartitionSnoc<K(!new)>(declared: seq<K>, s: seq<K>, p: seq<K>, x: K)
    requires NoDuplicates(declared) && s == p + [x]
    requires SumCounts(declared, p) + SumCounts(Without(Distinct(p), declared), p) == |p|
    ensures SumCounts(declared, s) + SumCounts(Without(Distinct(s), declared), s) == |s|
  {
    var e := Without(Distinct(p), declared);
    SumCountsSnoc(declared, p, x);
    SumCountsSnoc(e, p, x);
    WithoutDistinctSnoc(p, x, declared);
    if x !in p && x !in declared {
      assert multiset(s)[x] == 1;
      assert (e + [x])[..|e|] == e;
    }
  }

  /** The new keys of `p + [x]` outside `declared`: those of `p`, then `x`
      when it is new and not declared. */
  lemma WithoutDistinctSnoc<K(!new)>(p: seq<K>, x: K, declared: seq<K>)
    ensures Without(Distinct(p + [x]), declared)
         == if x in p || x in declared then Without(Distinct(p), declared)
            else Without(Distinct(p), declared) + [x]
  {
    DistinctSnoc(p, x);
    if x !in p {
      var d := Distinct(p);
      assert (d + [x])[..|d|] == d;
    }
  }

  /** The counts of the distinct keys of `s` add up to `|s|`. */
  lemma DistinctCountsSum<K(!new)>(s: seq<K>)
    ensures SumCounts(Distinct(s), s) == |s|
  {
    PartitionCounts([], s);
    assert Without(Distinct(s), []) == Distinct(s) by {
      WithoutNothing(Distinct(s));
    }
  }

  lemma {:induction false} WithoutNothing<K(!new)>(ks: seq<K>)
    ensures Without(ks, []) == ks
  {
    if ks != [] {
      var p := ks[..|ks| - 1];
      WithoutNothing(p);
      assert ks[|ks| - 1] !in [];
      assert ks == p + [ks[|ks| - 1]];
    }
  }

  lemma {:induction false} NoDuplicatesCount<K(!new)>(s: seq<K>, v: K)
    requires NoDuplicates(s)
    ensures multiset(s)[v] <= 1
  {
    if s != [] {
      var p := s[..|s| - 1];
      assert s == p + [s[|s| - 1]];
      NoDuplicatesCount(p, v);
      if v == s[|s| - 1] {
        assert v !in p;
      }
    }
  }

  lemma RepeatedCount<K(!new)>(s: seq<K>, i: nat, j: nat)
    requires i < j < |s| && s[i] == s[j]
    ensures multiset(s)[s[i]] >= 2
  {
    assert s == s[..j] + [s[j]] + s[j + 1..];
    assert s[i] in s[..j];
  }

  /** Reordering a sequence without repetitions leaves it without repetitions. */
  lemma NoDuplicatesPermutation<K(!new)>(a: seq<K>, b: seq<K>)
    requires NoDuplicates(a) && multiset(a) == multiset(b)
    ensures NoDuplicates(b)
  {
    forall i, j | 0 <= i < j < |b| ensures b[i] != b[j] {
      if b[i] == b[j] {
        RepeatedCount(b, i, j);
        NoDuplicatesCount(a, b[i]);
      }
    }
  }

  /** The number of elements of `s` that satisfy `p`. */
  function CountIf<T>(s: seq<T>, p: T -> bool): (n: nat)
    ensures n <= |s|
  {
    if s == [] then 0
    else CountIf(s[..|s| - 1], p) + (if p(s[|s| - 1]) then 1 else 0)
  }

  lemma {:induction false} CountIfConcat<T>(a: seq<T>, b: seq<T>, p: T -> bool)
    ensures CountIf(a + b, p) == CountIf(a, p) + CountIf(b, p)
  {
    if b == [] {
      assert a + b == a;
    } else {
      assert (a + b)[..|a + b| - 1] == a + b[..|b| - 1];
      CountIfConcat(a, b[..|b| - 1], p);
    }
  }

  /** Counting does not depend on the order of the elements. */
  lemma {:induction false} CountIfPermutation<T(!new)>(a: seq<T>, b: seq<T>, p: T -> bool)
    requires multiset(a) == multiset(b)
    ensures CountIf(a, p) == CountIf(b, p)
  {
    if a != [] {
      var j := PermutationStep(a, b);
      CountIfPermutation(a[..|a| - 1], b[..j] + b[j + 1..], p);
      CountIfMiddle(b[..j], b[j], b[j + 1..], p);
    }
  }

  lemma CountIfMiddle<T>(x: seq<T>, m: T, y: seq<T>, p: T -> bool)
    ensures CountIf(x + [m] + y, p) == CountIf(x + y, p) + (if p(m) then 1 else 0)
  {
    CountIfConcat(x + [m], y, p);
    CountIfConcat(x, y, p);
    assert (x + [m])[..|x|] == x;
  }

  /** `f` applied to each element of `s` (`map(f)`). */
  function MapSeq<A, B>(s: seq<A>, f: A -> B): (r: seq<B>)
    ensures |r| == |s|
    ensures forall i :: 0 <= i < |s| ==> r[i] == f(s[i])
  {
    seq(|s|, i requires 0 <= i < |s| => f(s[i]))
  }

  /** Mapping over a sequence extended by one element. */
  lemma MapSeqSnoc<A, B>(s: seq<A>, x: A, f: A -> B)
    ensures MapSeq(s + [x], f) == MapSeq(s, f) + [f(x)]
  {
    var a, b := MapSeq(s + [x], f), MapSeq(s, f) + [f(x)];
    forall k | 0 <= k < |a| ensures a[k] == b[k] {
      if k < |s| {
        assert (s + [x])[k] == s[k];
      }
    }
  }

  /** `s` in reverse order (`reverse()`). */
  function Reverse<T>(s: seq<T>): (r: seq<T>)
    ensures |r| == |s|
    ensures forall i :: 0 <= i < |s| ==> r[i] == s[|s| - 1 - i]
  {
    if s == [] then [] else [s[|s| - 1]] + Reverse(s[..|s| - 1])
  }

  /** Reversing puts a last element first. */
  lemma ReverseSnoc<T>(s: seq<T>, x: T)
    ensures Reverse(s + [x]) == [x] + Reverse(s)
  {
    assert (s + [x])[..|s|] == s;
  }
}
