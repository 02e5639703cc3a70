/** Option for the nullable references of the source (`string?`, navigation properties, FirstOrDefault). */
module Wrappers {
  datatype Option<+T> = None | Some(value: T) {
    /** C#'s `x ?? d`. */
    function GetOr(d: T): T {
      match this
      case Some(v) => v
      case None => d
    }
  }
}

/** The string operations the core relies on, stated over `seq<char>`. */
module Text {
  import opened Wrappers

  newtype byte = b: int | 0 <= b < 256

  /** .NET `s.Contains(sub)` with ordinal comparison: `sub` occurs at some position of `s`. */
  predicate Contains(s: string, sub: string) {
    exists i | 0 <= i <= |s| - |sub| :: OccursAt(s, sub, i)
  }

  predicate OccursAt(s: string, sub: string, i: int) {
    0 <= i <= |s| - |sub| && s[i..i + |sub|] == sub
  }

  /** .NET `s.StartsWith(prefix)`. */
  predicate StartsWith(s: string, prefix: string) {
    |prefix| <= |s| && s[..|prefix|] == prefix
  }

  /** .NET `s.EndsWith(suffix)`. */
  predicate EndsWith(s: string, suffix: string) {
    |suffix| <= |s| && s[|s| - |suffix|..] == suffix
  }

  /** `string.IsNullOrEmpty(s)` for a nullable string. */
  predicate IsNullOrEmpty(s: Option<string>) {
    s.None? || s.value == ""
  }

  predicate IsAsciiUpper(c: char) { 'A' <= c <= 'Z' }
  predicate IsAsciiLower(c: char) { 'a' <= c <= 'z' }

  function LowerChar(c: char): char {
    if IsAsciiUpper(c) then (c as int + 32) as char else c
  }

  function UpperChar(c: char): char {
    if IsAsciiLower(c) then (c as int - 32) as char else c
  }

  /** `ToLower()`, restricted to the ASCII letters. */
  function ToLower(s: string): (r: string)
    ensures |r| == |s|
    ensures forall i :: 0 <= i < |r| ==> !IsAsciiUpper(r[i])
    ensures forall i :: 0 <= i < |r| && !IsAsciiUpper(s[i]) ==> r[i] == s[i]
    ensures forall i :: 0 <= i < |r| && IsAsciiUpper(s[i]) ==> r[i] as int == s[i] as int + 32
  {
    seq(|s|, i requires 0 <= i < |s| => LowerChar(s[i]))
  }

  /** `ToUpper()`, restricted to the ASCII letters. */
  function ToUpper(s: string): (r: string)
    ensures |r| == |s|
    ensures forall i :: 0 <= i < |r| ==> !IsAsciiLower(r[i])
    ensures forall i :: 0 <= i < |r| && !IsAsciiLower(s[i]) ==> r[i] == s[i]
    ensures forall i :: 0 <= i < |r| && IsAsciiLower(s[i]) ==> r[i] as int == s[i] as int - 32
  {
    seq(|s|, i requires 0 <= i < |s| => UpperChar(s[i]))
  }

  /** A keyword without ASCII capitals that occurs in `s` still occurs after `s` is lower-cased. */
  lemma ContainsLower(s: string, w: string)
    requires forall k :: 0 <= k < |w| ==> !IsAsciiUpper(w[k])
    requires Contains(s, w)
    ensures Contains(ToLower(s), w)
  {
    var i :| 0 <= i <= |s| - |w| && OccursAt(s, w, i);
    var l := ToLower(s);
    forall k | 0 <= k < |w| ensures l[i + k] == w[k] {
      assert s[i + k] == s[i..i + |w|][k];
    }
    assert l[i..i + |w|] == w;
    assert OccursAt(l, w, i);
  }

  /** The cut `s.Length > n ? s.Substring(0, n) : s` applied before storing a column, counting
      Unicode scalar values (.NET counts UTF-16 code units, which differ above U+FFFF). */
  function Truncate(s: string, n: nat): (r: string)
    ensures |r| <= n && |r| <= |s|
    ensures StartsWith(s, r)
    ensures |s| <= n ==> r == s
    ensures |r| == (if |s| < n then |s| else n)
  {
    if |s| > n then s[..n] else s
  }

  /** The code units of `Encoding.UTF8.GetBytes` for one Unicode scalar value. */
  function Utf8Char(c: char): (r: seq<byte>)
    ensures 1 <= |r| <= 4
    ensures (c as int) < 0x80 ==> r == [c as int as byte]
    ensures (c as int) >= 0x80 ==> |r| >= 2 && forall i :: 0 <= i < |r| ==> r[i] >= 0x80
  {
    var n := c as int;
    if n < 0x80 then [n as byte]
    else if n < 0x800 then [(0xC0 + n / 64) as byte, (0x80 + n % 64) as byte]
    else if n < 0x10000 then
      [(0xE0 + n / 4096) as byte, (0x80 + (n / 64) % 64) as byte, (0x80 + n % 64) as byte]
    else
      [(0xF0 + n / 262144) as byte, (0x80 + (n / 4096) % 64) as byte,
       (0x80 + (n / 64) % 64) as byte, (0x80 + n % 64) as byte]
  }

  /** `Encoding.UTF8.GetBytes(s)`. */
  function Utf8(s: string): seq<byte> {
    if s == [] then [] else Utf8Char(s[0]) + Utf8(s[1..])
  }

  /** An ASCII-only string is encoded one byte per character, each byte its code. */
  lemma {:induction false} Utf8OfAscii(s: string)
    requires forall i :: 0 <= i < |s| ==> (s[i] as int) < 0x80
    ensures |Utf8(s)| == |s|
    ensures forall i :: 0 <= i < |s| ==> Utf8(s)[i] as int == s[i] as int
  {
    if s != [] {
      Utf8OfAscii(s[1..]);
      assert Utf8(s) == [s[0] as int as byte] + Utf8(s[1..]);
    }
  }

  function DigitChar(d: nat): char
    requires d < 10
  {
    "0123456789"[d]
  }

  predicate IsDigit(c: char) { '0' <= c <= '9' }

  function DigitValue(c: char): nat
    requires IsDigit(c)
  {
    c as int - '0' as int
  }

  /** The decimal digits of a natural number, most significant first, without leading zeros. */
  function NatToString(n: nat): (r: string)
    ensures |r| >= 1
    ensures forall i :: 0 <= i < |r| ==> IsDigit(r[i])
    ensures n > 0 ==> r[0] != '0'
    decreases n
  {
    if n < 10 then [DigitChar(n)] else NatToString(n / 10) + [DigitChar(n % 10)]
  }

  /** Reads a string of decimal digits back as a number (the reference for NatToString). */
  function DigitsValue(s: string): nat
    requires forall i :: 0 <= i < |s| ==> IsDigit(s[i])
  {
    if s == [] then 0 else DigitsValue(s[..|s| - 1]) * 10 + DigitValue(s[|s| - 1])
  }

  /** NatToString loses nothing: reading the digits back yields the number. */
  lemma {:induction false} NatToStringRoundTrip(n: nat)
    ensures DigitsValue(NatToString(n)) == n
    decreases n
  {
    var r := NatToString(n);
    if n >= 10 {
      NatToStringRoundTrip(n / 10);
      assert r[..|r| - 1] == NatToString(n / 10);
    }
  }

  /** `int.ToString()` with the invariant culture: an optional minus sign, then the digits. */
  function IntToString(n: int): (r: string)
    ensures |r| >= 1 && (r[0] == '-' <==> n < 0)
  {
    if n >= 0 then NatToString(n) else "-" + NatToString(-n)
  }

  predicate AllDigits(s: string) {
    forall i :: 0 <= i < |s| ==> IsDigit(s[i])
  }

  /** Reads an optional minus sign and decimal digits back as an integer (the reference for
      IntToString); None for any other text. */
  function ParseInt(s: string): Option<int> {
    if |s| >= 2 && s[0] == '-' && AllDigits(s[1..]) then Some(0 - DigitsValue(s[1..]) as int)
    else if |s| >= 1 && AllDigits(s) then Some(DigitsValue(s))
    else None
  }

  /** IntToString loses nothing: reading the text back yields the number, sign included. */
  lemma IntToStringRoundTrip(n: int)
    ensures ParseInt(IntToString(n)) == Some(n)
  {
    var r := IntToString(n);
    if n >= 0 {
      NatToStringRoundTrip(n);
    } else {
      NatToStringRoundTrip(-n);
      assert r[1..] == NatToString(-n);
    }
  }

  /** Truncation toward zero, the first step of the C# cast `(int)d` of a decimal. */
  function TruncateToInt(x: real): (r: int)
    ensures x >= 0.0 ==> 0 <= r && r as real <= x < r as real + 1.0
    ensures x < 0.0 ==> r <= 0 && r as real - 1.0 < x <= r as real
  {
    if x >= 0.0 then x.Floor else -((-x).Floor)
  }

  const Int32Min: int := -0x8000_0000
  const Int32Max: int := 0x7FFF_FFFF

  /** The C# cast `(int)d` of a decimal: the truncated value, or None where .NET throws
      OverflowException because it lies outside the 32-bit range. */
  function CastToInt32(x: real): (r: Option<int>)
    ensures r.Some? <==> Int32Min as real - 1.0 < x < Int32Max as real + 1.0
    ensures r.Some? ==> r.value == TruncateToInt(x) && Int32Min <= r.value <= Int32Max
  {
    var t := TruncateToInt(x);
    if Int32Min <= t <= Int32Max then Some(t) else None
  }

  /** The first present value of a chain `a ?? b ?? c ?? ...`, or None when all are null. */
  function Coalesce<T>(xs: seq<Option<T>>): (r: Option<T>)
    ensures r.Some? <==> exists i :: 0 <= i < |xs| && xs[i].Some?
    ensures r.Some? ==> exists i :: 0 <= i < |xs| && xs[i] == r && forall j :: 0 <= j < i ==> xs[j].None?
  {
    if xs == [] then None
    else if xs[0].Some? then xs[0]
    else
      var r := Coalesce(xs[1..]);
      assert forall i :: 1 <= i < |xs| ==> xs[i] == xs[1..][i - 1];
      r
  }
}

/** The LINQ operators the core uses, over sequences: `FirstOrDefault`, `Where`, `Count`, `Take` and
    the stable `OrderBy`, sorting by a caller-supplied order. */
module Seqs {
  import opened Wrappers

  /** The index `FirstOrDefault(p)` finds, or None. */
  function FirstIndex<T>(s: seq<T>, p: T -> bool): (r: Option<nat>)
    ensures r.Some? ==> r.value < |s| && p(s[r.value]) && forall j :: 0 <= j < r.value ==> !p(s[j])
    ensures r.None? ==> forall j :: 0 <= j < |s| ==> !p(s[j])
  {
    if s == [] then None
    else if p(s[0]) then Some(0)
    else
      match FirstIndex(s[1..], p)
      case None => None
      case Some(k) => Some(k + 1)
  }

  /** Rewriting the matched element so that it still matches, and leaving the others alone, keeps
      the first match where it was. */
  lemma FirstIndexStable<T>(s: seq<T>, s': seq<T>, k: nat, p: T -> bool)
    requires FirstIndex(s, p) == Some(k) && |s'| == |s|
    requires p(s'[k]) && forall j :: 0 <= j < |s| && j != k ==> s'[j] == s[j]
    ensures FirstIndex(s', p) == Some(k)
  {
    assert forall j :: 0 <= j < k ==> s'[j] == s[j];
  }

  /** LINQ `Where(p)`, keeping the order of `s`. */
  function Filter<T>(s: seq<T>, p: T -> bool): (r: seq<T>)
    ensures |r| <= |s|
    ensures forall i :: 0 <= i < |r| ==> r[i] in s && p(r[i])
    ensures forall i :: 0 <= i < |s| && p(s[i]) ==> s[i] in r
  {
    if s == [] then [] else (if p(s[0]) then [s[0]] else []) + Filter(s[1..], p)
  }

  lemma {:induction false} FilterAppend<T>(a: seq<T>, b: seq<T>, p: T -> bool)
    ensures Filter(a + b, p) == Filter(a, p) + Filter(b, p)
  {
    if a == [] {
      assert a + b == b;
    } else {
      var head := if p(a[0]) then [a[0]] else [];
      calc {
        Filter(a + b, p);
        { assert (a + b)[0] == a[0] && (a + b)[1..] == a[1..] + b; }
        head + Filter(a[1..] + b, p);
        { FilterAppend(a[1..], b, p); }
        head + (Filter(a[1..], p) + Filter(b, p));
        (head + Filter(a[1..], p)) + Filter(b, p);
      }
    }
  }

  /** LINQ `Count(p)`. */
  function Count<T>(s: seq<T>, p: T -> bool): (n: nat)
    ensures n <= |s|
    ensures n > 0 <==> exists i :: 0 <= i < |s| && p(s[i])
  {
    var r := Filter(s, p);
    assert r != [] ==> r[0] in r;
    |r|
  }

  /** `leq` is total and transitive: what `OrderBy` needs of its comparer. */
  ghost predicate TotalPreorder<T(!new)>(leq: (T, T) -> bool) {
    && (forall a, b :: leq(a, b) || leq(b, a))
    && (forall a, b, c :: leq(a, b) && leq(b, c) ==> leq(a, c))
  }

  ghost predicate SortedBy<T>(s: seq<T>, leq: (T, T) -> bool) {
    forall i, j :: 0 <= i < j < |s| ==> leq(s[i], s[j])
  }

  /** Inserts x before the first element it is `leq` to. */
  function Insert<T>(x: T, s: seq<T>, leq: (T, T) -> bool): (r: seq<T>)
    ensures multiset(r) == multiset(s) + multiset{x}
    ensures |r| == |s| + 1
  {
    if s == [] then [x]
    else if leq(x, s[0]) then [x] + s
    else
      assert s == [s[0]] + s[1..];
      [s[0]] + Insert(x, s[1..], leq)
  }

  /** Stable insertion sort: `s.OrderBy(...)` for the order `leq`. */
  function SortBy<T>(s: seq<T>, leq: (T, T) -> bool): (r: seq<T>)
    ensures multiset(r) == multiset(s)
    ensures |r| == |s|
  {
    if s == [] then []
    else
      assert s == [s[0]] + s[1..];
      Insert(s[0], SortBy(s[1..], leq), leq)
  }

  lemma {:induction false} InsertSorted<T(!new)>(x: T, s: seq<T>, leq: (T, T) -> bool)
    requires TotalPreorder(leq)
    requires SortedBy(s, leq)
    ensures SortedBy(Insert(x, s, leq), leq)
  {
    if s != [] && !leq(x, s[0]) {
      var tail := s[1..];
      assert forall i :: 0 <= i < |tail| ==> tail[i] == s[i + 1];
      InsertSorted(x, tail, leq);
      InsertLowerBound(s[0], x, tail, leq);
      var r := Insert(x, s, leq);
      var t := Insert(x, tail, leq);
      assert r == [s[0]] + t;
      forall i, j | 0 <= i < j < |r| ensures leq(r[i], r[j]) {
        assert r[j] == t[j - 1];
        if i > 0 {
          assert r[i] == t[i - 1];
        }
      }
    }
  }

  /** A lower bound of x and of every element of s bounds every element of the insertion. */
  lemma {:induction false} InsertLowerBound<T>(b: T, x: T, s: seq<T>, leq: (T, T) -> bool)
    requires leq(b, x) && forall i :: 0 <= i < |s| ==> leq(b, s[i])
    ensures forall i :: 0 <= i < |Insert(x, s, leq)| ==> leq(b, Insert(x, s, leq)[i])
  {
    if s != [] && !leq(x, s[0]) {
      var tail := s[1..];
      assert forall i :: 0 <= i < |tail| ==> tail[i] == s[i + 1];
      InsertLowerBound(b, x, tail, leq);
      assert Insert(x, s, leq) == [s[0]] + Insert(x, tail, leq);
    }
  }

  /** Sorting by a total preorder yields a sequence ordered by it. */
  lemma {:induction false} SortBySorted<T(!new)>(s: seq<T>, leq: (T, T) -> bool)
    requires TotalPreorder(leq)
    ensures SortedBy(SortBy(s, leq), leq)
  {
    if s != [] {
      SortBySorted(s[1..], leq);
      InsertSorted(s[0], SortBy(s[1..], leq), leq);
    }
  }

  /** LINQ `Take(n)`. */
  function Take<T>(s: seq<T>, n: nat): (r: seq<T>)
    ensures |r| <= n && |r| <= |s|
    ensures r == s[..|r|]
    ensures |s| >= n ==> |r| == n
  {
    if |s| <= n then s else s[..n]
  }

  /** LINQ `Select(f)`. */
  function Map<T, U>(s: seq<T>, f: T -> U): (r: seq<U>)
    ensures |r| == |s| && forall i :: 0 <= i < |s| ==> r[i] == f(s[i])
  {
    seq(|s|, i requires 0 <= i < |s| => f(s[i]))
  }

  /** Keeping fewer elements keeps no more of them: `Count(q) <= Count(p)` when q implies p. */
  lemma {:induction false} FilterNarrower<T>(s: seq<T>, p: T -> bool, q: T -> bool)
    requires forall x :: q(x) ==> p(x)
    ensures |Filter(s, q)| <= |Filter(s, p)|
  {
    if s != [] {
      FilterNarrower(s[1..], p, q);
    }
  }

  /** Two `Where`s in a row keep what their conjunction keeps. */
  lemma {:induction false} FilterOfFilter<T>(s: seq<T>, p: T -> bool, q: T -> bool, pq: T -> bool)
    requires forall x :: pq(x) == (p(x) && q(x))
    ensures Filter(s, pq) == Filter(Filter(s, p), q)
  {
    if s != [] {
      FilterOfFilter(s[1..], p, q, pq);
      var fp := Filter(s, p);
      if p(s[0]) {
        assert fp == [s[0]] + Filter(s[1..], p);
        assert fp[0] == s[0] && fp[1..] == Filter(s[1..], p);
      } else {
        assert fp == Filter(s[1..], p);
      }
    }
  }

  /** LINQ `Sum(f)` over exact decimal values. */
  function Sum<T>(s: seq<T>, f: T -> real): (r: real)
    ensures s == [] ==> r == 0.0
  {
    if s == [] then 0.0 else f(s[0]) + Sum(s[1..], f)
  }

  lemma {:induction false} SumAppend<T>(a: seq<T>, b: seq<T>, f: T -> real)
    ensures Sum(a + b, f) == Sum(a, f) + Sum(b, f)
  {
    if a == [] {
      assert a + b == b;
    } else {
      assert (a + b)[1..] == a[1..] + b;
      SumAppend(a[1..], b, f);
    }
  }

  /** A sum of non-negative terms is non-negative. */
  lemma {:induction false} SumNonNegative<T>(s: seq<T>, f: T -> real)
    requires forall i :: 0 <= i < |s| ==> f(s[i]) >= 0.0
    ensures Sum(s, f) >= 0.0
  {
    if s != [] {
      SumNonNegative(s[1..], f);
    }
  }

  /** Dropping non-negative terms cannot increase a sum. */
  lemma {:induction false} SumFilterLe<T>(s: seq<T>, p: T -> bool, f: T -> real)
    requires forall i :: 0 <= i < |s| ==> f(s[i]) >= 0.0
    ensures Sum(Filter(s, p), f) <= Sum(s, f)
  {
    if s != [] {
      SumFilterLe(s[1..], p, f);
      var head := if p(s[0]) then [s[0]] else [];
      assert Filter(s, p) == head + Filter(s[1..], p);
      SumAppend(head, Filter(s[1..], p), f);
    }
  }

  lemma {:induction false} SumInsert<T>(x: T, s: seq<T>, leq: (T, T) -> bool, f: T -> real)
    ensures Sum(Insert(x, s, leq), f) == f(x) + Sum(s, f)
  {
    if s != [] && !leq(x, s[0]) {
      SumInsert(x, s[1..], leq, f);
    }
  }

  /** Reordering does not change a sum. */
  lemma {:induction false} SumSortBy<T>(s: seq<T>, leq: (T, T) -> bool, f: T -> real)
    ensures Sum(SortBy(s, leq), f) == Sum(s, f)
  {
    if s != [] {
      SumSortBy(s[1..], leq, f);
      SumInsert(s[0], SortBy(s[1..], leq), leq, f);
    }
  }

  lemma {:induction false} FilterInsert<T>(x: T, s: seq<T>, leq: (T, T) -> bool, p: T -> bool)
    ensures |Filter(Insert(x, s, leq), p)| == (if p(x) then 1 else 0) + |Filter(s, p)|
  {
    var r := Insert(x, s, leq);
    if s == [] {
      assert r == [x];
    } else if leq(x, s[0]) {
      assert r == [x] + s && r[1..] == s;
    } else {
      FilterInsert(x, s[1..], leq, p);
      assert r[0] == s[0] && r[1..] == Insert(x, s[1..], leq);
    }
  }

  /** Reordering does not change a count. */
  lemma {:induction false} FilterSortBy<T>(s: seq<T>, leq: (T, T) -> bool, p: T -> bool)
    ensures |Filter(SortBy(s, leq), p)| == |Filter(s, p)|
  {
    if s != [] {
      FilterSortBy(s[1..], leq, p);
      FilterInsert(s[0], SortBy(s[1..], leq), leq, p);
    }
  }

  predicate NoDuplicates<T(==)>(s: seq<T>) {
    forall i, j :: 0 <= i < j < |s| ==> s[i] != s[j]
  }

  /** LINQ `Distinct()`: the first occurrence of each element, in order. */
  function Distinct<T(==,!new)>(s: seq<T>): (r: seq<T>)
    ensures forall x :: x in r <==> x in s
    ensures NoDuplicates(r)
  {
    if s == [] then []
    else
      var d := Distinct(s[..|s| - 1]);
      var x := s[|s| - 1];
      assert s == s[..|s| - 1] + [x];
      if x in d then d else d + [x]
  }

  /** LINQ (and SQL) `Union`: the elements of both sequences, each once. */
  function Union<T(==,!new)>(a: seq<T>, b: seq<T>): (r: seq<T>)
    ensures forall x :: x in r <==> x in a || x in b
    ensures NoDuplicates(r)
  {
    Distinct(a + b)
  }
}

/** The keyword-to-image classifiers: an ordered list of keyword groups, the first group with a
    keyword in the name deciding the image. */
module Keywords {
  import opened Text

  /** One branch `if (name.Contains(k1) || name.Contains(k2) ...) return image;`. */
  datatype Rule = Rule(keywords: seq<string>, image: string)

  predicate Matches(name: string, rule: Rule) {
    exists k :: 0 <= k < |rule.keywords| && Contains(name, rule.keywords[k])
  }

  /** The image of the first matching rule, the fallback when none matches. */
  function FirstMatch(rules: seq<Rule>, name: string, fallback: string): (r: string)
    ensures forall i :: 0 <= i < |rules| && Matches(name, rules[i]) && FirstMatching(rules, name, i) ==>
              r == rules[i].image
    ensures (forall i :: 0 <= i < |rules| ==> !Matches(name, rules[i])) ==> r == fallback
  {
    if rules == [] then fallback
    else if Matches(name, rules[0]) then rules[0].image
    else
      var r := FirstMatch(rules[1..], name, fallback);
      assert forall i :: 1 <= i < |rules| ==> rules[i] == rules[1..][i - 1];
      assert forall i :: 1 <= i < |rules| && FirstMatching(rules, name, i) ==> FirstMatching(rules[1..], name, i - 1);
      r
  }

  /** A two-keyword group matches when either keyword occurs. */
  lemma MatchesTwo(name: string, a: string, b: string, image: string)
    ensures Matches(name, Rule([a, b], image)) <==> Contains(name, a) || Contains(name, b)
  {
    var ks := [a, b];
    if Contains(name, a) { assert Contains(name, ks[0]); }
    if Contains(name, b) { assert Contains(name, ks[1]); }
  }

  /** A three-keyword group matches when any of its keywords occurs. */
  lemma MatchesThree(name: string, a: string, b: string, c: string, image: string)
    ensures Matches(name, Rule([a, b, c], image)) <==> Contains(name, a) || Contains(name, b) || Contains(name, c)
  {
    var ks := [a, b, c];
    if Contains(name, a) { assert Contains(name, ks[0]); }
    if Contains(name, b) { assert Contains(name, ks[1]); }
    if Contains(name, c) { assert Contains(name, ks[2]); }
  }

  /** No rule before index i matches. */
  predicate FirstMatching(rules: seq<Rule>, name: string, i: int) {
    forall j :: 0 <= j < i && j < |rules| ==> !Matches(name, rules[j])
  }
}
