/** The numeric and textual helpers of the dashboard (`src/lib/utils.ts`):
    one-decimal percentages and means, the median, choice-label
    normalisation, grouping, and the keyword ranking of free-text answers.

    Numbers with one decimal are represented exactly as integer tenths: the
    JavaScript value `x` is the `Tenths` value `10 * x`. */
module Utils {
  import opened Text
  import opened Collections
  import opened Sorting

  /** A number with one decimal, stored as ten times its value. */
  type Tenths = int

  /** `r` is `Math.round(num / den)`, i.e. the integer nearest to the
      quotient, halves rounded up: r - 1/2 <= num/den < r + 1/2. */
  ghost predicate IsRounded(num: int, den: int, r: int)
    requires den > 0
  {
    2 * den * r <= 2 * num + den < 2 * den * (r + 1)
  }

  /** `Math.round(num / den)` computed exactly on integers. */
  function RoundDiv(num: int, den: int): (r: int)
    requires den > 0
    ensures IsRounded(num, den, r)
  {
    (2 * num + den) / (2 * den)
  }

  lemma PositiveFactor(d: int, x: int)
    requires d > 0 && d * x > 0
    ensures x > 0
  {
  }

  /** A rounded quotient stays within any integer bounds of the quotient. */
  lemma RoundedWithin(num: int, den: int, r: int, lo: int, hi: int)
    requires den > 0 && IsRounded(num, den, r)
    requires den * lo <= num <= den * hi
    ensures lo <= r <= hi
  {
    assert den * (2 * hi + 2 - 2 * r) == 2 * den * hi + 2 * den - 2 * den * r;
    PositiveFactor(den, 2 * hi + 2 - 2 * r);
    assert den * (2 * r + 2 - 2 * lo) == 2 * den * (r + 1) - 2 * den * lo;
    PositiveFactor(den, 2 * r + 2 - 2 * lo);
  }

  /** `safePercentage(value, total)`: `0` when `total` is `0`, otherwise the
      percentage `value / total` rounded to one decimal. */
  function SafePercentage(value: int, total: nat): (r: Tenths)
    ensures total == 0 ==> r == 0
    ensures total > 0 ==> IsRounded(1000 * value, total, r)
    ensures 0 <= value <= total ==> 0 <= r <= 1000
  {
    if total == 0 then 0
    else
      var r := RoundDiv(1000 * value, total);
      assert 0 <= value <= total ==> 0 <= r <= 1000 by {
        if 0 <= value <= total {
          RoundedWithin(1000 * value, total, r, 0, 1000);
        }
      }
      r
  }

  // ---------------------------------------------------------------------
  // normalizeChoiceLabel

  /** Every whitespace character is a plain space and no two spaces are
      adjacent. */
  ghost predicate SingleSpaced(s: string) {
    && (forall i :: 0 <= i < |s| ==> IsSpace(s[i]) ==> s[i] == ' ')
    && (forall i :: 0 <= i < |s| - 1 ==> !(s[i] == ' ' && s[i + 1] == ' '))
  }

  /** `replace(/\s+/g, " ")`: each maximal run of whitespace becomes one space. */
  function CollapseSpaces(s: string): (r: string)
    ensures SingleSpaced(r)
    ensures s == [] <==> r == []
    ensures s != [] && !IsSpace(s[0]) ==> r[0] == s[0]
    decreases |s|
  {
    if s == [] then []
    else if IsSpace(s[0]) then [' '] + CollapseSpaces(TrimStart(s[1..]))
    else [s[0]] + CollapseSpaces(s[1..])
  }

  lemma SingleSpacedSlice(s: string, lo: nat, hi: nat)
    requires SingleSpaced(s) && lo <= hi <= |s|
    ensures SingleSpaced(s[lo..hi])
  {
    forall i | 0 <= i < hi - lo - 1 ensures !(s[lo..hi][i] == ' ' && s[lo..hi][i + 1] == ' ') {
      assert s[lo..hi][i] == s[lo + i] && s[lo..hi][i + 1] == s[lo + i + 1];
    }
  }

  /** Lower-casing keeps spaces where they are. */
  lemma LowerKeepsShape(t: string)
    requires SingleSpaced(t) && IsTrimmed(t)
    ensures SingleSpaced(ToLower(t)) && IsTrimmed(ToLower(t)) && NoUpper(ToLower(t))
  {
    var r := ToLower(t);
    forall i | 0 <= i < |r| && IsSpace(r[i]) ensures r[i] == ' ' {
      assert IsSpace(t[i]);
    }
    forall i | 0 <= i < |r| - 1 ensures !(r[i] == ' ' && r[i + 1] == ' ') {
      assert r[i] == ' ' ==> t[i] == ' ';
      assert r[i + 1] == ' ' ==> t[i + 1] == ' ';
    }
    ToLowerFacts(t);
  }

  /** The shape of every normalised label. */
  ghost predicate Normalized(s: string) {
    SingleSpaced(s) && IsTrimmed(s) && NoUpper(s)
  }

  /** `normalizeChoiceLabel`: collapse whitespace runs, trim, lower-case. */
  function NormalizeChoiceLabel(s: string): (r: string)
    ensures Normalized(r)
  {
    var c := CollapseSpaces(s);
    var t := Trim(c);
    NormalizeSteps(c, TrimStart(c), t);
    ToLower(t)
  }

  /** Trimming a single-spaced text from both ends, then lower-casing it,
      gives a normalised label. */
  lemma NormalizeSteps(c: string, u: string, t: string)
    requires SingleSpaced(c)
    requires |u| <= |c| && u == c[|c| - |u|..]
    requires |t| <= |u| && t == u[..|t|]
    requires IsTrimmed(t)
    ensures Normalized(ToLower(t))
  {
    SingleSpacedSlice(c, |c| - |u|, |c|);
    SingleSpacedSlice(u, 0, |t|);
    LowerKeepsShape(t);
  }

  /** Collapsing whitespace removes no visible character. */
  lemma {:induction false} CollapseContent(s: string)
    ensures NonSpace(CollapseSpaces(s)) == NonSpace(s)
    decreases |s|
  {
    if s != [] {
      if IsSpace(s[0]) {
        var u := TrimStart(s[1..]);
        var rest := CollapseSpaces(u);
        assert ([' '] + rest)[1..] == rest;
        CollapseContent(u);
        TrimStartContent(s[1..]);
      } else {
        var rest := CollapseSpaces(s[1..]);
        assert ([s[0]] + rest)[1..] == rest;
        CollapseContent(s[1..]);
      }
    }
  }

  /** Normalising keeps every visible character, in order, lower-cased:
      only whitespace is dropped or turned into single spaces. */
  lemma NormalizeContent(s: string)
    ensures NonSpace(NormalizeChoiceLabel(s)) == ToLower(NonSpace(s))
  {
    var c := CollapseSpaces(s);
    CollapseContent(s);
    TrimContent(c);
    ToLowerContent(Trim(c));
  }

  lemma {:induction false} CollapseOfSingleSpaced(s: string)
    requires SingleSpaced(s)
    ensures CollapseSpaces(s) == s
    decreases |s|
  {
    if s != [] {
      assert SingleSpaced(s[1..]);
      if IsSpace(s[0]) {
        assert s[1..] == [] || !IsSpace(s[1]);
        assert TrimStart(s[1..]) == s[1..];
      }
      CollapseOfSingleSpaced(s[1..]);
    }
  }

  /** A normalised label is left unchanged by normalisation. */
  lemma NormalizeOfNormalized(s: string)
    requires Normalized(s)
    ensures NormalizeChoiceLabel(s) == s
  {
    CollapseOfSingleSpaced(s);
    TrimOfTrimmed(s);
    ToLowerFacts(s);
  }

  /** Normalising twice is normalising once. */
  lemma NormalizeIdempotent(s: string)
    ensures NormalizeChoiceLabel(NormalizeChoiceLabel(s)) == NormalizeChoiceLabel(s)
  {
    NormalizeOfNormalized(NormalizeChoiceLabel(s));
  }

  // ---------------------------------------------------------------------
  // groupBy

  /** `picker` applied to every item, in order. */
  function Keys<T, K>(items: seq<T>, picker: T -> K): (ks: seq<K>)
    ensures |ks| == |items|
  {
    seq(|items|, i requires 0 <= i < |items| => picker(items[i]))
  }

  /** The items whose key is `k`, in input order. */
  function Select<T, K(==)>(items: seq<T>, picker: T -> K, k: K): seq<T> {
    if items == [] then []
    else
      var p := Select(items[..|items| - 1], picker, k);
      if picker(items[|items| - 1]) == k then p + [items[|items| - 1]] else p
  }

  lemma {:induction false} SelectSize<T, K(!new)>(items: seq<T>, picker: T -> K, k: K)
    ensures |Select(items, picker, k)| == multiset(Keys(items, picker))[k]
  {
    if items != [] {
      var p := items[..|items| - 1];
      SelectSize(p, picker, k);
      assert Keys(items, picker) == Keys(p, picker) + [picker(items[|items| - 1])];
    }
  }

  /** Appending one item extends the selection of its own key only. */
  lemma SelectSnoc<T, K>(items: seq<T>, picker: T -> K, x: T, k: K)
    ensures Select(items + [x], picker, k)
         == Select(items, picker, k) + (if picker(x) == k then [x] else [])
  {
    assert (items + [x])[..|items|] == items;
  }

  lemma {:induction false} SelectOfAbsent<T, K(!new)>(items: seq<T>, picker: T -> K, k: K)
    requires k !in Keys(items, picker)
    ensures Select(items, picker, k) == []
  {
    if items != [] {
      var p := items[..|items| - 1];
      assert Keys(items, picker) == Keys(p, picker) + [picker(items[|items| - 1])];
      SelectOfAbsent(p, picker, k);
    }
  }

  /** The number of items held by the buckets of `keys`. */
  function BucketSizes<K(!new), T>(keys: seq<K>, buckets: map<K, seq<T>>): nat {
    if keys == [] then 0
    else
      var k := keys[|keys| - 1];
      BucketSizes(keys[..|keys| - 1], buckets) + (if k in buckets then |buckets[k]| else 0)
  }

  /** `groups` is the grouping of `items`: its keys in first-seen order,
      each bucket the selection of its key. */
  ghost predicate GroupsOf<T, K(!new)>(groups: OrderedMap<K, seq<T>>, items: seq<T>, picker: T -> K) {
    && groups.Valid()
    && groups.keys == Distinct(Keys(items, picker))
    && forall k :: k in groups.entries ==> groups.entries[k] == Select(items, picker, k)
  }

  /** `groupBy(items, picker)`: one bucket per key, created when the key is
      first met, each holding its items in input order. */
  method GroupBy<T, K(==, !new)>(items: seq<T>, picker: T -> K) returns (groups: OrderedMap<K, seq<T>>)
    ensures GroupsOf(groups, items, picker)
  {
    groups := EmptyMap();
    for i := 0 to |items|
      invariant GroupsOf(groups, items[..i], picker)
    {
      var key := picker(items[i]);
      GroupPrefixStep(items, i, picker, groups);
      groups := groups.Set(key, groups.Get(key).GetOr([]) + [items[i]]);
    }
    assert items[..|items|] == items;
  }

  /** The grouping of `items[..i]` extended by `items[i]`. */
  lemma GroupPrefixStep<T, K(!new)>(items: seq<T>, i: nat, picker: T -> K, groups: OrderedMap<K, seq<T>>)
    requires i < |items| && GroupsOf(groups, items[..i], picker)
    ensures GroupsOf(groups.Set(picker(items[i]), groups.Get(picker(items[i])).GetOr([]) + [items[i]]), items[..i + 1], picker)
  {
    GroupStep(items[..i], items[i], picker, groups);
    assert items[..i + 1] == items[..i] + [items[i]];
  }

  /** One item added to the grouping of a prefix. */
  lemma GroupStep<T, K(!new)>(prefix: seq<T>, x: T, picker: T -> K, groups: OrderedMap<K, seq<T>>)
    requires GroupsOf(groups, prefix, picker)
    ensures GroupsOf(groups.Set(picker(x), groups.Get(picker(x)).GetOr([]) + [x]), prefix + [x], picker)
  {
    var key := picker(x);
    assert (prefix + [x])[..|prefix|] == prefix;
    assert Keys(prefix + [x], picker) == Keys(prefix, picker) + [key];
    DistinctSnoc(Keys(prefix, picker), key);
    if key !in groups.entries {
      SelectOfAbsent(prefix, picker, key);
    }
    forall k {
      SelectSnoc(prefix, picker, x, k);
    }
  }

  lemma {:induction false} BucketSizesAreCounts<T, K(!new)>(keys: seq<K>, items: seq<T>, picker: T -> K, buckets: map<K, seq<T>>)
    requires forall k :: k in keys ==> k in buckets && buckets[k] == Select(items, picker, k)
    ensures BucketSizes(keys, buckets) == SumCounts(keys, Keys(items, picker))
  {
    if keys != [] {
      var k := keys[|keys| - 1];
      BucketSizesAreCounts(keys[..|keys| - 1], items, picker, buckets);
      SelectSize(items, picker, k);
    }
  }

  /** The buckets of `groupBy` together hold every item exactly once. */
  lemma GroupSizesSum<T, K(!new)>(items: seq<T>, picker: T -> K, groups: OrderedMap<K, seq<T>>)
    requires GroupsOf(groups, items, picker)
    ensures BucketSizes(groups.keys, groups.entries) == |items|
  {
    BucketSizesAreCounts(groups.keys, items, picker, groups.entries);
    DistinctCountsSum(Keys(items, picker));
  }

  // ---------------------------------------------------------------------
  // average and median

  function Sum(values: seq<int>): int {
    if values == [] then 0 else values[0] + Sum(values[1..])
  }

  function MinOf(values: seq<int>): (m: int)
    requires values != []
    ensures m in values && forall x :: x in values ==> m <= x
  {
    if |values| == 1 then values[0]
    else
      var m := MinOf(values[1..]);
      assert values == [values[0]] + values[1..];
      if values[0] <= m then values[0] else m
  }

  function MaxOf(values: seq<int>): (m: int)
    requires values != []
    ensures m in values && forall x :: x in values ==> x <= m
  {
    if |values| == 1 then values[0]
    else
      var m := MaxOf(values[1..]);
      assert values == [values[0]] + values[1..];
      if values[0] >= m then values[0] else m
  }

  lemma MulSucc(n: int, x: int)
    ensures (n + 1) * x == x + n * x
  {
  }

  /** The sum of values lying in `[lo, hi]` lies between `|values|` times
      each bound. */
  lemma {:induction false} SumBounds(values: seq<int>, lo: int, hi: int)
    requires forall x :: x in values ==> lo <= x <= hi
    ensures |values| * lo <= Sum(values) <= |values| * hi
  {
    if values != [] {
      var rest := values[1..];
      assert values[0] in values;
      assert forall x :: x in rest ==> x in values;
      SumBounds(rest, lo, hi);
      MulSucc(|rest|, lo);
      MulSucc(|rest|, hi);
    }
  }

  lemma ScaleBounds(n: int, lo: int, hi: int, sum: int)
    requires n * lo <= sum <= n * hi
    ensures n * (10 * lo) <= 10 * sum <= n * (10 * hi)
  {
    assert n * (10 * lo) == 10 * (n * lo);
    assert n * (10 * hi) == 10 * (n * hi);
  }

  lemma AverageWithin(values: seq<int>, r: int)
    requires values != [] && IsRounded(10 * Sum(values), |values|, r)
    ensures 10 * MinOf(values) <= r <= 10 * MaxOf(values)
  {
    var lo, hi := MinOf(values), MaxOf(values);
    SumBounds(values, lo, hi);
    ScaleBounds(|values|, lo, hi, Sum(values));
    RoundedWithin(10 * Sum(values), |values|, r, 10 * lo, 10 * hi);
  }

  /** `average(values)`: `0` for no values, otherwise the mean rounded to one
      decimal; it never leaves the range of the values. */
  function Average(values: seq<int>): (r: Tenths)
    ensures values == [] ==> r == 0
    ensures values != [] ==> IsRounded(10 * Sum(values), |values|, r)
    ensures values != [] ==> 10 * MinOf(values) <= r <= 10 * MaxOf(values)
  {
    if values == [] then 0
    else
      var n := |values|;
      var r := RoundDiv(10 * Sum(values), n);
      assert 10 * MinOf(values) <= r <= 10 * MaxOf(values) by {
        AverageWithin(values, r);
      }
      r
  }

  /** `[...values].sort((a, b) => a - b)` */
  function Ascend(values: seq<int>): (sorted: seq<int>)
    ensures multiset(sorted) == multiset(values) && |sorted| == |values|
    ensures Ascending(sorted)
  {
    var sorted := SortBy(values, Id);
    SortBySorted(values, Id);
    AscendingById(sorted);
    assert |sorted| == |multiset(sorted)| == |multiset(values)| == |values|;
    sorted
  }

  /** Rounding the mean of two integers to one decimal is exact. */
  lemma HalfOfSum(a: int, b: int)
    ensures RoundDiv(10 * (a + b), 2) == 5 * (a + b)
  {
    var r := RoundDiv(10 * (a + b), 2);
    assert 4 * r <= 20 * (a + b) + 2 < 4 * (r + 1);
  }

  /** `median(values)`: `0` for no values; otherwise the middle of the
      ascending arrangement, or the mean of the two middle values for an
      even count, rounded to one decimal. */
  function Median(values: seq<int>): (r: Tenths)
    ensures values == [] ==> r == 0
    ensures values != [] ==> 10 * MinOf(values) <= r <= 10 * MaxOf(values)
  {
    if values == [] then 0
    else
      var sorted := Ascend(values);
      var mid := |sorted| / 2;
      assert forall i :: 0 <= i < |sorted| ==> sorted[i] in values by {
        forall i | 0 <= i < |sorted| ensures sorted[i] in values {
          assert sorted[i] in multiset(sorted);
        }
      }
      if |sorted| % 2 != 0 then 10 * sorted[mid]
      else
        var r := RoundDiv(10 * (sorted[mid - 1] + sorted[mid]), 2);
        HalfOfSum(sorted[mid - 1], sorted[mid]);
        r
  }

  /** The median is the middle of any ascending arrangement of the values
      (the mean of the two middle ones, exactly, for an even count). */
  lemma MedianOfAscending(values: seq<int>, a: seq<int>)
    requires Ascending(a) && multiset(a) == multiset(values) && a != []
    ensures |a| % 2 == 1 ==> Median(values) == 10 * a[|a| / 2]
    ensures |a| % 2 == 0 ==> Median(values) == 5 * (a[|a| / 2 - 1] + a[|a| / 2])
  {
    assert values != [] by {
      assert a[0] in multiset(values);
    }
    SortedUnique(Ascend(values), a);
    if |a| % 2 == 0 {
      HalfOfSum(a[|a| / 2 - 1], a[|a| / 2]);
    }
  }

  /** The median depends only on the multiset of values, not their order. */
  lemma MedianPermutation(a: seq<int>, b: seq<int>)
    requires multiset(a) == multiset(b)
    ensures Median(a) == Median(b)
  {
    SortedUnique(Ascend(a), Ascend(b));
    SameSortedMedian(a, b);
  }

  /** The median reads the values only through their ascending order. */
  lemma SameSortedMedian(a: seq<int>, b: seq<int>)
    requires Ascend(a) == Ascend(b)
    ensures Median(a) == Median(b)
  {
    assert |a| == |Ascend(a)| == |Ascend(b)| == |b|;
  }

  // ---------------------------------------------------------------------
  // topWords

  /** One entry of the keyword ranking. */
  datatype WordCount = WordCount(word: string, count: nat)

  /** The words `topWords` never counts. */
  const Blacklist: set<string> :=
    {"les", "des", "avec", "plus", "pour", "une", "vos", "nos", "est", "sur"}

  predicate IsPunctuation(c: char) {
    c == '.' || c == ',' || c == ';' || c == ':' || c == '!' || c == '?'
  }

  /** `replace(/[.,;:!?]/g, " ")` */
  function Scrub(s: string): (r: string)
    ensures |r| == |s|
    ensures forall i :: 0 <= i < |s| ==> r[i] == if IsPunctuation(s[i]) then ' ' else s[i]
  {
    seq(|s|, i requires 0 <= i < |s| => if IsPunctuation(s[i]) then ' ' else s[i])
  }

  /** The length of the run of non-whitespace characters that starts `s`. */
  function TokenEnd(s: string): (n: nat)
    ensures n <= |s|
    ensures forall i :: 0 <= i < n ==> !IsSpace(s[i])
    ensures n < |s| ==> IsSpace(s[n])
  {
    if s == [] || IsSpace(s[0]) then 0 else 1 + TokenEnd(s[1..])
  }

  /** Characters `topWords` has already removed or lowered. */
  ghost predicate Scrubbed(s: string) {
    forall i :: 0 <= i < |s| ==> !IsPunctuation(s[i]) && !IsUpper(s[i])
  }

  /** The non-empty pieces of `split(/\s+/)`: the maximal runs of
      non-whitespace characters, in order. */
  function Tokens(s: string): (ts: seq<string>)
    ensures forall t :: t in ts ==> IsWord(t)
    decreases |s|
  {
    var t := TrimStart(s);
    if t == [] then []
    else
      var n := TokenEnd(t);
      TokenHead(t, n);
      [t[..n]] + Tokens(t[n..])
  }

  /** The texts of `ts` one after the other. */
  function Flatten(ts: seq<string>): string {
    if ts == [] then [] else ts[0] + Flatten(ts[1..])
  }

  lemma FlattenCons(head: string, rest: seq<string>)
    ensures Flatten([head] + rest) == head + Flatten(rest)
  {
    assert ([head] + rest)[1..] == rest;
  }

  /** The tokens hold every visible character of the text, in order, and
      nothing else. */
  lemma {:induction false} TokensContent(s: string)
    ensures Flatten(Tokens(s)) == NonSpace(s)
    decreases |s|
  {
    var t := TrimStart(s);
    TrimStartContent(s);
    if t != [] {
      var n := TokenEnd(t);
      TokensContent(t[n..]);
      FlattenCons(t[..n], Tokens(t[n..]));
      RunContent(t, n);
    }
  }

  /** A leading run without whitespace is kept whole by `NonSpace`. */
  lemma RunContent(t: string, n: nat)
    requires n <= |t| && forall i :: 0 <= i < n ==> !IsSpace(t[i])
    ensures NonSpace(t) == t[..n] + NonSpace(t[n..])
  {
    SplitAt(t, n);
    RunKept(t, n);
    NonSpaceConcat(t[..n], t[n..]);
  }

  lemma SplitAt(t: string, n: nat)
    requires n <= |t|
    ensures t == t[..n] + t[n..]
  {
  }

  lemma RunKept(t: string, n: nat)
    requires n <= |t| && forall i :: 0 <= i < n ==> !IsSpace(t[i])
    ensures NonSpace(t[..n]) == t[..n]
  {
    var head := t[..n];
    forall i | 0 <= i < |head| ensures !IsSpace(head[i]) {
      assert head[i] == t[i];
    }
    NonSpaceOfWord(head);
  }

  /** A word is one token. */
  lemma TokensOfWord(w: string)
    requires IsWord(w)
    ensures Tokens(w) == [w]
  {
    assert TrimStart(w) == w;
    assert TokenEnd(w) == |w|;
    assert w[..|w|] == w;
    assert Tokens(w[|w|..]) == [];
  }

  /** Whitespace alone has no token. */
  lemma TokensOfSpaces(s: string)
    requires forall i :: 0 <= i < |s| ==> IsSpace(s[i])
    ensures Tokens(s) == []
  {
    TrimStartDropsSpaces(s);
  }

  /** Whitespace separates tokens: when `b` starts with whitespace, the
      tokens of `a + b` are the tokens of `a`, then those of `b`. */
  lemma {:induction false} TokensSplit(a: string, b: string)
    requires b != [] && IsSpace(b[0])
    ensures Tokens(a + b) == Tokens(a) + Tokens(b)
    decreases |a|
  {
    var u := TrimStart(a);
    TrimStartAppend(a, b);
    if u == [] {
      TokensAfterSpaces(a + b, b);
    } else {
      var n := TokenEnd(u);
      TokenHead(u, n);
      TokensSplit(u[n..], b);
      TokensSplitWord(a, b, u, n);
    }
  }

  /** The case of `TokensSplit` where `a` has a first token `u[..n]`. */
  lemma TokensSplitWord(a: string, b: string, u: string, n: nat)
    requires b != [] && IsSpace(b[0])
    requires u == TrimStart(a) && u != [] && n == TokenEnd(u)
    requires Tokens(u[n..] + b) == Tokens(u[n..]) + Tokens(b)
    ensures Tokens(a + b) == Tokens(a) + Tokens(b)
  {
    TrimStartAppend(a, b);
    TokenEndAppend(u, b);
    SplitPieces(u, b, n);
    TokensStep(a + b, u + b, n);
    assert Tokens(a + b) == [u[..n]] + Tokens(u[n..] + b);
    TokensStep(a, u, n);
    assert Tokens(a) == [u[..n]] + Tokens(u[n..]);
    ConsAppend(u[..n], Tokens(u[n..]), Tokens(b));
  }

  lemma ConsAppend(h: string, x: seq<string>, y: seq<string>)
    ensures [h] + (x + y) == ([h] + x) + y
  {
  }

  /** `Tokens` reads only what follows the leading whitespace. */
  lemma TokensAfterSpaces(s: string, b: string)
    requires TrimStart(s) == TrimStart(b)
    ensures Tokens(s) == Tokens(b)
  {
  }

  /** One step of `Tokens`: the first run, then the tokens of the rest. */
  lemma TokensStep(s: string, t: string, n: nat)
    requires t == TrimStart(s) && t != [] && n == TokenEnd(t)
    ensures Tokens(s) == [t[..n]] + Tokens(t[n..])
  {
  }

  lemma SplitPieces(u: string, b: string, n: nat)
    requires n <= |u|
    ensures (u + b)[..n] == u[..n]
    ensures (u + b)[n..] == u[n..] + b
  {
  }

  lemma {:induction false} TrimStartAppend(x: string, y: string)
    ensures TrimStart(x) != [] ==> TrimStart(x + y) == TrimStart(x) + y
    ensures TrimStart(x) == [] ==> TrimStart(x + y) == TrimStart(y)
  {
    if x == [] {
      assert x + y == y;
    } else {
      assert (x + y)[0] == x[0];
      assert (x + y)[1..] == x[1..] + y;
      TrimStartAppend(x[1..], y);
    }
  }

  /** A run without whitespace ends no later than a whitespace character. */
  lemma {:induction false} TokenEndAppend(x: string, y: string)
    requires y != [] && IsSpace(y[0])
    ensures TokenEnd(x + y) == TokenEnd(x)
  {
    if x == [] {
      assert x + y == y;
    } else {
      assert (x + y)[0] == x[0];
      assert (x + y)[1..] == x[1..] + y;
      TokenEndAppend(x[1..], y);
    }
  }

  /** The run that starts a trimmed text is a non-empty word. */
  lemma TokenHead(t: string, n: nat)
    requires t != [] && !IsSpace(t[0])
    requires n <= |t| && (forall i :: 0 <= i < n ==> !IsSpace(t[i])) && (n < |t| ==> IsSpace(t[n]))
    ensures 0 < n && IsWord(t[..n])
  {
  }

  /** A non-empty run of non-whitespace characters. */
  predicate IsWord(w: string) {
    w != [] && forall i :: 0 <= i < |w| ==> !IsSpace(w[i])
  }

  lemma {:induction false} TokensScrubbed(s: string)
    requires Scrubbed(s)
    ensures forall t :: t in Tokens(s) ==> Scrubbed(t)
    decreases |s|
  {
    var t := TrimStart(s);
    if t != [] {
      var n := TokenEnd(t);
      assert Scrubbed(t[..n]) && Scrubbed(t[n..]);
      TokensScrubbed(t[n..]);
    }
  }

  /** A word `topWords` keeps: longer than three characters, outside the
      blacklist. */
  predicate KeepWord(w: string) {
    |w| > 3 && w !in Blacklist
  }

  function FilterWords(ws: seq<string>): (r: seq<string>)
    ensures forall w :: w in r <==> w in ws && KeepWord(w)
  {
    if ws == [] then []
    else (if KeepWord(ws[0]) then [ws[0]] else []) + FilterWords(ws[1..])
  }

  /** What every counted word looks like. */
  ghost predicate IsKeyword(w: string) {
    && KeepWord(w)
    && Scrubbed(w)
    && IsWord(w)
  }

  /** The words of one sentence, in order. */
  function Words(sentence: string): (ws: seq<string>)
    ensures forall w :: w in ws ==> IsKeyword(w)
  {
    var lowered := ToLower(sentence);
    var scrubbed := Scrub(lowered);
    TokensScrubbed(scrubbed);
    FilterWords(Tokens(scrubbed))
  }

  /** The words of all sentences, in order. */
  function AllWords(sentences: seq<string>): (ws: seq<string>)
    ensures forall w :: w in ws ==> IsKeyword(w)
  {
    if sentences == [] then []
    else AllWords(sentences[..|sentences| - 1]) + Words(sentences[|sentences| - 1])
  }

  /** `Object.entries(freq)` paired as `{ word, count }`. */
  function Entries(freq: OrderedMap<string, nat>): (es: seq<WordCount>)
    requires freq.Valid()
    ensures |es| == |freq.keys|
    ensures forall i :: 0 <= i < |es| ==> es[i] == WordCount(freq.keys[i], freq.entries[freq.keys[i]])
  {
    seq(|freq.keys|, i requires 0 <= i < |freq.keys| => WordCount(freq.keys[i], freq.entries[freq.keys[i]]))
  }

  function ByCountDescending(e: WordCount): int { -(e.count as int) }

  function Take<T>(s: seq<T>, n: nat): (r: seq<T>)
    ensures |r| <= n && |r| <= |s|
    ensures |r| == n || r == s
    ensures forall i :: 0 <= i < |r| ==> r[i] == s[i]
  {
    if |s| <= n then s else s[..n]
  }

  /** `Object.entries(freq).sort((a, b) => b[1] - a[1])`: every counted word
      once, most frequent first; the sort is stable, so ties keep the order
      in which the words were first met. */
  function Ranking(words: seq<string>): seq<WordCount> {
    SortBy(Entries(Tally(words)), ByCountDescending)
  }

  lemma RankingEntries(words: seq<string>)
    ensures forall e :: e in Entries(Tally(words)) ==>
              e.word in words && e.count == multiset(words)[e.word]
    ensures forall w :: w in words ==> WordCount(w, multiset(words)[w]) in Entries(Tally(words))
    ensures NoDuplicates(Entries(Tally(words)))
  {
    var freq := Tally(words);
    var es := Entries(freq);
    forall w | w in words ensures WordCount(w, multiset(words)[w]) in es {
      var i :| 0 <= i < |freq.keys| && freq.keys[i] == w;
      assert es[i] == WordCount(w, multiset(words)[w]);
    }
  }

  /** Every ranked entry is a counted word with its number of occurrences. */
  lemma RankingCounts(words: seq<string>)
    ensures forall i :: 0 <= i < |Ranking(words)| ==>
              Ranking(words)[i].word in words
              && Ranking(words)[i].count == multiset(words)[Ranking(words)[i].word]
  {
    var es := Entries(Tally(words));
    var ranked := Ranking(words);
    RankingEntries(words);
    forall i | 0 <= i < |ranked|
      ensures ranked[i].word in words && ranked[i].count == multiset(words)[ranked[i].word]
    {
      assert ranked[i] in multiset(ranked);
      assert ranked[i] in es;
    }
  }

  /** The ranking lists counts in non-increasing order. */
  lemma RankingOrdered(words: seq<string>)
    ensures forall i, j :: 0 <= i < j < |Ranking(words)| ==>
              Ranking(words)[i].count >= Ranking(words)[j].count
  {
    var ranked := Ranking(words);
    SortBySorted(Entries(Tally(words)), ByCountDescending);
    forall i, j | 0 <= i < j < |ranked| ensures ranked[i].count >= ranked[j].count {
      assert ByCountDescending(ranked[i]) <= ByCountDescending(ranked[j]);
    }
  }

  /** The ranking names each word at most once. */
  lemma RankingDistinct(words: seq<string>)
    ensures forall i, j :: 0 <= i < j < |Ranking(words)| ==>
              Ranking(words)[i].word != Ranking(words)[j].word
  {
    var ranked := Ranking(words);
    RankingEntries(words);
    RankingCounts(words);
    NoDuplicatesPermutation(Entries(Tally(words)), ranked);
  }

  /** The ranking names every counted word. */
  lemma RankingComplete(words: seq<string>, w: string)
    requires w in words
    ensures exists i :: 0 <= i < |Ranking(words)| && Ranking(words)[i].word == w
  {
    var ranked := Ranking(words);
    RankingEntries(words);
    var e := WordCount(w, multiset(words)[w]);
    assert e in multiset(ranked);
    var i :| 0 <= i < |ranked| && ranked[i] == e;
  }

  /** `.slice(0, limit)` of the ranking: at most `limit` distinct counted
      words with their exact counts, most frequent first, and no word left
      out that is more frequent than the last one kept. */
  function RankWords(words: seq<string>, limit: nat): (top: seq<WordCount>)
    ensures |top| <= limit
    ensures forall i :: 0 <= i < |top| ==>
              top[i].word in words && top[i].count == multiset(words)[top[i].word]
    ensures forall i, j :: 0 <= i < j < |top| ==> top[i].count >= top[j].count
    ensures forall i, j :: 0 <= i < j < |top| ==> top[i].word != top[j].word
    ensures forall w :: w in words && (forall i :: 0 <= i < |top| ==> top[i].word != w) ==>
              |top| == limit && (limit > 0 ==> multiset(words)[w] <= top[limit - 1].count)
  {
    TopFacts(words, limit);
    Take(Ranking(words), limit)
  }

  lemma TopFacts(words: seq<string>, limit: nat)
    ensures var top := Take(Ranking(words), limit);
            && (forall i :: 0 <= i < |top| ==>
                  top[i].word in words && top[i].count == multiset(words)[top[i].word])
            && (forall i, j :: 0 <= i < j < |top| ==> top[i].count >= top[j].count)
            && (forall i, j :: 0 <= i < j < |top| ==> top[i].word != top[j].word)
            && (forall w :: w in words && (forall i :: 0 <= i < |top| ==> top[i].word != w) ==>
                  |top| == limit && (limit > 0 ==> multiset(words)[w] <= top[limit - 1].count))
  {
    RankingCounts(words);
    RankingOrdered(words);
    RankingDistinct(words);
    forall w | w in words && (forall i :: 0 <= i < |Take(Ranking(words), limit)| ==> Take(Ranking(words), limit)[i].word != w)
      ensures |Take(Ranking(words), limit)| == limit
      ensures limit > 0 ==> multiset(words)[w] <= Take(Ranking(words), limit)[limit - 1].count
    {
      TopIncludesFrequent(words, limit, w);
    }
  }

  /** A counted word missing from the first `limit` ranked entries is no more
      frequent than the last of them, and there are `limit` of them. */
  lemma TopIncludesFrequent(words: seq<string>, limit: nat, w: string)
    requires w in words
    requires forall i :: 0 <= i < |Take(Ranking(words), limit)| ==> Take(Ranking(words), limit)[i].word != w
    ensures |Take(Ranking(words), limit)| == limit
    ensures limit > 0 ==> multiset(words)[w] <= Take(Ranking(words), limit)[limit - 1].count
  {
    var ranked := Ranking(words);
    var top := Take(ranked, limit);
    RankingComplete(words, w);
    RankingCounts(words);
    RankingOrdered(words);
    var j :| 0 <= j < |ranked| && ranked[j].word == w;
    assert j >= |top|;
  }

  lemma TallySnoc(ws: seq<string>, w: string)
    ensures Tally(ws + [w]) == Increment(Tally(ws), w)
  {
    assert (ws + [w])[..|ws|] == ws;
  }

  lemma TallyStep(before: seq<string>, words: seq<string>, j: nat)
    requires j < |words|
    ensures Tally(before + words[..j + 1]) == Increment(Tally(before + words[..j]), words[j])
  {
    assert before + words[..j + 1] == (before + words[..j]) + [words[j]];
    TallySnoc(before + words[..j], words[j]);
  }

  lemma TallyStart(before: seq<string>, words: seq<string>)
    ensures Tally(before + words[..0]) == Tally(before)
  {
    assert before + words[..0] == before;
  }

  lemma AllWordsStep(sentences: seq<string>, i: nat)
    requires i < |sentences|
    ensures AllWords(sentences[..i + 1]) == AllWords(sentences[..i]) + Words(sentences[i])[..|Words(sentences[i])|]
  {
    assert sentences[..i + 1][..i] == sentences[..i];
    assert Words(sentences[i])[..|Words(sentences[i])|] == Words(sentences[i]);
  }

  lemma AllWordsFull(sentences: seq<string>)
    ensures AllWords(sentences[..|sentences|]) == AllWords(sentences)
  {
    assert sentences[..|sentences|] == sentences;
  }

  /** The number of keywords `topWords` returns when no limit is given. */
  const DefaultWordLimit: nat := 5

  /** `topWords(sentences, limit)`: counts the words of every sentence in
      turn, then ranks them. */
  method TopWords(sentences: seq<string>, limit: nat) returns (top: seq<WordCount>)
    ensures top == RankWords(AllWords(sentences), limit)
  {
    var freq: OrderedMap<string, nat> := EmptyMap();
    for i := 0 to |sentences|
      invariant freq == Tally(AllWords(sentences[..i]))
    {
      var words := Words(sentences[i]);
      ghost var before := AllWords(sentences[..i]);
      TallyStart(before, words);
      for j := 0 to |words|
        invariant freq == Tally(before + words[..j])
      {
        TallyStep(before, words, j);
        freq := Increment(freq, words[j]);
      }
      AllWordsStep(sentences, i);
    }
    AllWordsFull(sentences);
    top := Take(SortBy(Entries(freq), ByCountDescending), limit);
  }
}
