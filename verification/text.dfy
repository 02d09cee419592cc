/** String primitives of the JavaScript runtime that the dashboard code relies
    on: the `\s` / `trim()` whitespace class, ASCII lower-casing, prefix tests
    and the ordering used by `<` / `>` on strings, taken as character
    ordering, which matches JavaScript's on the Basic Multilingual Plane. */
module Text {

  /** The characters matched by `\s` and removed by `String.prototype.trim`:
      space, tab through carriage return, and the wide spaces below. */
  predicate IsSpace(c: char) {
    if c < '\U{00A0}' then c == ' ' || ('\t' <= c <= '\r') else IsWideSpace(c)
  }

  /** The whitespace characters from U+00A0 on. */
  predicate IsWideSpace(c: char) {
    || c == '\U{00A0}' || c == '\U{1680}'
    || ('\U{2000}' <= c <= '\U{200A}')
    || c == '\U{2028}' || c == '\U{2029}' || c == '\U{202F}' || c == '\U{205F}'
    || c == '\U{3000}' || c == '\U{FEFF}'
  }

  predicate IsUpper(c: char) { 'A' <= c <= 'Z' }

  function LowerChar(c: char): (d: char)
    ensures !IsUpper(d)
    ensures !IsUpper(c) ==> d == c
    ensures IsSpace(d) <==> IsSpace(c)
  {
    if IsUpper(c) then (c as int + 32) as char else c
  }

  /** `toLowerCase()` restricted to the ASCII letters. */
  function ToLower(s: string): (r: string)
    ensures |r| == |s|
    ensures forall i :: 0 <= i < |s| ==> r[i] == LowerChar(s[i])
  {
    seq(|s|, i requires 0 <= i < |s| => LowerChar(s[i]))
  }

  predicate NoUpper(s: string) {
    forall i :: 0 <= i < |s| ==> !IsUpper(s[i])
  }

  lemma ToLowerFacts(s: string)
    ensures NoUpper(ToLower(s))
    ensures NoUpper(s) ==> ToLower(s) == s
  {
  }

  /** Drops the leading whitespace of `s`. */
  function TrimStart(s: string): (r: string)
    ensures |r| <= |s| && r == s[|s| - |r|..]
    ensures r == [] || !IsSpace(r[0])
  {
    if s != [] && IsSpace(s[0]) then TrimStart(s[1..]) else s
  }

  /** Drops the trailing whitespace of `s`. */
  function TrimEnd(s: string): (r: string)
    ensures |r| <= |s| && r == s[..|r|]
    ensures r == [] || !IsSpace(r[|r| - 1])
  {
    if s != [] && IsSpace(s[|s| - 1]) then TrimEnd(s[..|s| - 1]) else s
  }

  predicate IsTrimmed(s: string) {
    s == [] || (!IsSpace(s[0]) && !IsSpace(s[|s| - 1]))
  }

  /** `trim()`: the contiguous piece of `s` left once whitespace is removed
      from both ends. */
  function Trim(s: string): (r: string)
    ensures IsTrimmed(r)
  {
    var t := TrimStart(s);
    var r := TrimEnd(t);
    TrimmedEnds(t, r);
    r
  }

  lemma TrimmedEnds(t: string, r: string)
    requires |r| <= |t| && r == t[..|r|]
    requires t == [] || !IsSpace(t[0])
    requires r == [] || !IsSpace(r[|r| - 1])
    ensures IsTrimmed(r)
  {
    if r != [] {
      assert r[0] == t[0];
    }
  }

  lemma TrimOfTrimmed(s: string)
    requires IsTrimmed(s)
    ensures Trim(s) == s
  {
  }

  /** `trimStart()` drops whitespace only. */
  lemma {:induction false} TrimStartDropsSpaces(s: string)
    ensures forall i :: 0 <= i < |s| - |TrimStart(s)| ==> IsSpace(s[i])
    decreases |s|
  {
    if s != [] && IsSpace(s[0]) {
      TrimStartDropsSpaces(s[1..]);
      forall i | 0 < i < |s| - |TrimStart(s)| ensures IsSpace(s[i]) {
        assert s[i] == s[1..][i - 1];
      }
    }
  }

  /** `trimEnd()` drops whitespace only. */
  lemma {:induction false} TrimEndDropsSpaces(s: string)
    ensures forall i :: |TrimEnd(s)| <= i < |s| ==> IsSpace(s[i])
    decreases |s|
  {
    if s != [] && IsSpace(s[|s| - 1]) {
      var front := s[..|s| - 1];
      TrimEndDropsSpaces(front);
      forall i | |TrimEnd(s)| <= i < |s| - 1 ensures IsSpace(s[i]) {
        assert s[i] == front[i];
      }
    }
  }

  /** `r` is the piece of `s` starting at `lo`, and everything of `s`
      before and after it is whitespace. */
  ghost predicate PieceAmidSpaces(s: string, lo: nat, r: string) {
    && lo + |r| <= |s|
    && r == s[lo..lo + |r|]
    && (forall i :: 0 <= i < lo ==> IsSpace(s[i]))
    && (forall i :: lo + |r| <= i < |s| ==> IsSpace(s[i]))
  }

  /** `trim()` keeps one contiguous piece of `s` and removes only
      whitespace before and after it. */
  lemma TrimSlice(s: string)
    ensures PieceAmidSpaces(s, |s| - |TrimStart(s)|, Trim(s))
  {
    TrimStartDropsSpaces(s);
    TrimEndDropsSpaces(TrimStart(s));
    TrimPieces(s, TrimStart(s), Trim(s));
  }

  /** The trimmed piece `r` of the suffix `t` of `s`, located in `s`. */
  lemma TrimPieces(s: string, t: string, r: string)
    requires |t| <= |s| && t == s[|s| - |t|..]
    requires |r| <= |t| && r == t[..|r|]
    requires forall i :: 0 <= i < |s| - |t| ==> IsSpace(s[i])
    requires forall i :: |r| <= i < |t| ==> IsSpace(t[i])
    ensures PieceAmidSpaces(s, |s| - |t|, r)
  {
    var lo := |s| - |t|;
    forall i | lo + |r| <= i < |s| ensures IsSpace(s[i]) {
      assert s[i] == t[i - lo];
    }
    forall i | 0 <= i < |r| ensures r[i] == s[lo + i] {
      assert r[i] == t[i];
    }
  }

  /** The non-whitespace characters of `s`, in order. */
  function NonSpace(s: string): (r: string)
    ensures |r| <= |s|
    ensures forall i :: 0 <= i < |r| ==> !IsSpace(r[i])
  {
    if s == [] then []
    else if IsSpace(s[0]) then NonSpace(s[1..])
    else [s[0]] + NonSpace(s[1..])
  }

  lemma {:induction false} NonSpaceConcat(a: string, b: string)
    ensures NonSpace(a + b) == NonSpace(a) + NonSpace(b)
  {
    if a == [] {
      assert a + b == b;
    } else {
      assert (a + b)[0] == a[0];
      assert (a + b)[1..] == a[1..] + b;
      NonSpaceConcat(a[1..], b);
    }
  }

  lemma {:induction false} NonSpaceOfSpaces(s: string)
    requires forall i :: 0 <= i < |s| ==> IsSpace(s[i])
    ensures NonSpace(s) == []
  {
    if s != [] {
      assert forall i :: 0 <= i < |s[1..]| ==> s[1..][i] == s[i + 1];
      NonSpaceOfSpaces(s[1..]);
    }
  }

  lemma {:induction false} NonSpaceOfWord(w: string)
    requires forall i :: 0 <= i < |w| ==> !IsSpace(w[i])
    ensures NonSpace(w) == w
  {
    if w != [] {
      assert forall i :: 0 <= i < |w[1..]| ==> w[1..][i] == w[i + 1];
      NonSpaceOfWord(w[1..]);
    }
  }

  /** `trimStart()` removes no visible character. */
  lemma {:induction false} TrimStartContent(s: string)
    ensures NonSpace(TrimStart(s)) == NonSpace(s)
    decreases |s|
  {
    if s != [] && IsSpace(s[0]) {
      TrimStartContent(s[1..]);
    }
  }

  /** `trim()` removes no visible character. */
  lemma TrimContent(s: string)
    ensures NonSpace(Trim(s)) == NonSpace(s)
  {
    TrimSlice(s);
    PieceContent(s, |s| - |TrimStart(s)|, Trim(s));
  }

  /** A piece amid whitespace holds every visible character. */
  lemma PieceContent(s: string, lo: nat, r: string)
    requires PieceAmidSpaces(s, lo, r)
    ensures NonSpace(r) == NonSpace(s)
  {
    var hi := lo + |r|;
    var before, after := s[..lo], s[hi..];
    assert s == before + r + after;
    forall i | 0 <= i < |before| ensures IsSpace(before[i]) {
      assert before[i] == s[i];
    }
    forall i | 0 <= i < |after| ensures IsSpace(after[i]) {
      assert after[i] == s[hi + i];
    }
    NonSpaceOfSpaces(before);
    NonSpaceOfSpaces(after);
    NonSpaceConcat(before + r, after);
    NonSpaceConcat(before, r);
  }

  /** Lower-casing lowers the visible characters and moves no whitespace. */
  lemma {:induction false} ToLowerContent(s: string)
    ensures NonSpace(ToLower(s)) == ToLower(NonSpace(s))
  {
    if s != [] {
      var l := ToLower(s);
      assert l[1..] == ToLower(s[1..]);
      ToLowerContent(s[1..]);
      if !IsSpace(s[0]) {
        var rest := NonSpace(s[1..]);
        assert ToLower([s[0]] + rest) == [LowerChar(s[0])] + ToLower(rest);
      }
    }
  }

  predicate StartsWith(s: string, prefix: string) {
    |prefix| <= |s| && s[..|prefix|] == prefix
  }

  predicate EndsWith(s: string, suffix: string) {
    |suffix| <= |s| && s[|s| - |suffix|..] == suffix
  }

  /** `a < b` on strings: lexicographic order on characters. */
  predicate StrLt(a: string, b: string) {
    if a == [] then b != []
    else if b == [] then false
    else if a[0] != b[0] then a[0] < b[0]
    else StrLt(a[1..], b[1..])
  }

  lemma {:induction false} StrLtIrreflexive(a: string)
    ensures !StrLt(a, a)
  {
    if a != [] {
      StrLtIrreflexive(a[1..]);
    }
  }

  lemma {:induction false} StrLtTransitive(a: string, b: string, c: string)
    requires StrLt(a, b) && StrLt(b, c)
    ensures StrLt(a, c)
  {
    if a != [] && b != [] && c != [] && a[0] == b[0] && b[0] == c[0] {
      StrLtTransitive(a[1..], b[1..], c[1..]);
    }
  }

  lemma {:induction false} StrLtTotal(a: string, b: string)
    requires a != b
    ensures StrLt(a, b) || StrLt(b, a)
  {
    if a != [] && b != [] && a[0] == b[0] {
      assert a == [a[0]] + a[1..] && b == [b[0]] + b[1..];
      StrLtTotal(a[1..], b[1..]);
    }
  }

  lemma {:induction false} StrLtAsymmetric(a: string, b: string)
    requires StrLt(a, b)
    ensures !StrLt(b, a)
  {
    if a != [] && b != [] && a[0] == b[0] {
      StrLtAsymmetric(a[1..], b[1..]);
    }
  }

  /** `items.join(sep)` */
  function Join(items: seq<string>, sep: string): string {
    if items == [] then []
    else if |items| == 1 then items[0]
    else Join(items[..|items| - 1], sep) + sep + items[|items| - 1]
  }

  /** Joining reads from the front as well: the first item, then the
      separator, then the join of the others. */
  lemma {:induction false} JoinCons(first: string, rest: seq<string>, sep: string)
    requires rest != []
    ensures Join([first] + rest, sep) == first + sep + Join(rest, sep)
    decreases |rest|
  {
    var s := [first] + rest;
    var last := rest[|rest| - 1];
    if |rest| == 1 {
      assert s[..1] == [first];
    } else {
      var front := rest[..|rest| - 1];
      assert s[..|s| - 1] == [first] + front;
      JoinCons(first, front, sep);
      assert Join(s, sep) == first + sep + Join(front, sep) + sep + last;
    }
  }

  /** The sum of the lengths of some texts. */
  function TotalLength(items: seq<string>): nat {
    if items == [] then 0 else TotalLength(items[..|items| - 1]) + |items[|items| - 1]|
  }

  /** A join holds every item and one separator between each two. */
  lemma {:induction false} JoinLength(items: seq<string>, sep: string)
    requires items != []
    ensures |Join(items, sep)| == TotalLength(items) + (|items| - 1) * |sep|
  {
    if |items| > 1 {
      JoinLength(items[..|items| - 1], sep);
    } else {
      assert items[..0] == [];
    }
  }

  predicate IsDigit(c: char) { '0' <= c <= '9' }

  function DigitChar(d: nat): (c: char)
    requires d < 10
    ensures IsDigit(c)
  {
    ('0' as int + d) as char
  }

  /** The decimal digits of `n`, most significant first, no leading zero. */
  function NatToString(n: nat): (s: string)
    ensures |s| >= 1
    ensures forall i :: 0 <= i < |s| ==> IsDigit(s[i])
    ensures |s| > 1 ==> s[0] != '0'
  {
    if n < 10 then [DigitChar(n)] else NatToString(n / 10) + [DigitChar(n % 10)]
  }

  /** `n.toString()` for an integer. */
  function IntToString(n: int): string {
    if n < 0 then "-" + NatToString(-n) else NatToString(n)
  }

  /** The value of a string of decimal digits. */
  function DigitsValue(s: string): nat
    requires forall i :: 0 <= i < |s| ==> IsDigit(s[i])
  {
    if s == [] then 0
    else
      var c := s[|s| - 1];
      assert IsDigit(c);
      10 * DigitsValue(s[..|s| - 1]) + (c as int - '0' as int)
  }

  /** Reading back the decimal digits gives the number. */
  lemma {:induction false} NatToStringValue(n: nat)
    ensures DigitsValue(NatToString(n)) == n
  {
    if n >= 10 {
      var p := NatToString(n / 10);
      NatToStringValue(n / 10);
      assert (p + [DigitChar(n % 10)])[..|p|] == p;
    }
  }

  predicate AllDigits(s: string) {
    forall i :: 0 <= i < |s| ==> IsDigit(s[i])
  }

  /** An optional minus sign followed by at least one decimal digit. */
  predicate IsIntText(s: string) {
    if s != [] && s[0] == '-' then |s| > 1 && AllDigits(s[1..]) else s != [] && AllDigits(s)
  }

  /** The integer an integer text denotes. */
  function ParseInt(s: string): int
    requires IsIntText(s)
  {
    if s[0] == '-' then -(DigitsValue(s[1..]) as int) else DigitsValue(s)
  }

  /** Printing an integer gives an integer text that reads back as it. */
  lemma IntToStringRoundTrip(n: int)
    ensures IsIntText(IntToString(n))
    ensures ParseInt(IntToString(n)) == n
  {
    if n < 0 {
      NegativeRoundTrip(n);
    } else {
      NatToStringValue(n);
      assert IntToString(n) == NatToString(n);
      assert IsDigit(NatToString(n)[0]);
    }
  }

  lemma NegativeRoundTrip(n: int)
    requires n < 0
    ensures IsIntText(IntToString(n))
    ensures ParseInt(IntToString(n)) == n
  {
    var digits := NatToString(-n);
    assert IntToString(n) == "-" + digits;
    assert ("-" + digits)[1..] == digits;
    NatToStringValue(-n);
  }

  /** Different integers print differently. */
  lemma IntToStringInjective(a: int, b: int)
    requires IntToString(a) == IntToString(b)
    ensures a == b
  {
    IntToStringRoundTrip(a);
    IntToStringRoundTrip(b);
  }
}
