/**
 * Small building blocks shared by the order engine: the nullable value,
 * JavaScript array helpers (`findIndex`, `filter(...).length`, `reduce` sums,
 * `join`), decimal rendering of integers and the `_` to space rewrite.
 */
module Util {

  /** A value that may be `null`. */
  datatype Option<+T> = None | Some(value: T)

  // ---------------------------------------------------------------------------
  // Array helpers
  // ---------------------------------------------------------------------------

  /** `Array.prototype.findIndex`: the first index whose element satisfies `p`, or -1. */
  function FindIndex<T>(s: seq<T>, p: T -> bool): (r: int)
    ensures -1 <= r < |s|
    ensures r >= 0 ==> p(s[r])
    ensures forall j :: 0 <= j < |s| && (r < 0 || j < r) ==> !p(s[j])
  {
    if |s| == 0 then -1
    else if p(s[0]) then 0
    else
      var k := FindIndex(s[1..], p);
      if k < 0 then -1 else k + 1
  }

  /** `s.indexOf(x)`: the first position holding `x`, or -1. */
  function IndexOf<T(==)>(s: seq<T>, x: T): (r: int)
    ensures -1 <= r < |s|
    ensures r >= 0 ==> s[r] == x && x !in s[..r]
    ensures r < 0 <==> x !in s
  {
    var k := FindIndex(s, y => y == x);
    assert k >= 0 ==> forall j :: 0 <= j < k ==> s[..k][j] != x;
    k
  }

  /** Positions of the elements of a prefix do not move when the sequence grows by one. */
  lemma IndexOfExtend<T>(s: seq<T>)
    requires |s| > 0
    ensures forall x :: x in s[..|s| - 1] ==> IndexOf(s, x) == IndexOf(s[..|s| - 1], x) < |s| - 1
    ensures s[|s| - 1] !in s[..|s| - 1] ==> IndexOf(s, s[|s| - 1]) == |s| - 1
  {
    var n := |s| - 1;
    forall x | x in s[..n]
      ensures IndexOf(s, x) == IndexOf(s[..n], x)
    {
      var k := IndexOf(s[..n], x);
      assert s[..n][..k] == s[..k];
    }
  }

  /** `s.filter((a) => a === x).length`. */
  function Count<T(==)>(s: seq<T>, x: T): (n: nat)
    ensures n <= |s|
    ensures n == 0 <==> x !in s
  {
    if |s| == 0 then 0
    else Count(s[..|s| - 1], x) + (if s[|s| - 1] == x then 1 else 0)
  }

  /** Counting occurrences only looks at the multiset of the elements. */
  lemma {:induction false} CountIsMultiplicity<T>(s: seq<T>, x: T)
    ensures Count(s, x) == multiset(s)[x]
  {
    if |s| > 0 {
      CountIsMultiplicity(s[..|s| - 1], x);
      assert s == s[..|s| - 1] + [s[|s| - 1]];
    }
  }

  /** `s.reduce((acc, a) => acc + f(a), 0)`. */
  function SumOf<T>(s: seq<T>, f: T -> int): int
  {
    if |s| == 0 then 0 else SumOf(s[..|s| - 1], f) + f(s[|s| - 1])
  }

  lemma {:induction false} SumOfConcat<T>(a: seq<T>, b: seq<T>, f: T -> int)
    ensures SumOf(a + b, f) == SumOf(a, f) + SumOf(b, f)
  {
    if |b| > 0 {
      assert (a + b)[..|a + b| - 1] == a + b[..|b| - 1];
      SumOfConcat(a, b[..|b| - 1], f);
    } else {
      assert a + b == a;
    }
  }

  /** Replacing one element changes a sum by the difference of the two values. */
  lemma {:induction false} SumOfUpdate<T>(s: seq<T>, k: nat, x: T, f: T -> int)
    requires k < |s|
    ensures SumOf(s[k := x], f) == SumOf(s, f) - f(s[k]) + f(x)
  {
    var n := |s| - 1;
    if k == n {
      assert s[k := x][..n] == s[..n];
    } else {
      assert s[k := x][..n] == s[..n][k := x];
      SumOfUpdate(s[..n], k, x, f);
    }
  }

  /** Equal concatenations with suffixes of one length have equal parts. */
  lemma SplitAtSuffix<T>(x: seq<T>, u: seq<T>, y: seq<T>, v: seq<T>)
    requires x + u == y + v && |u| == |v|
    ensures x == y && u == v
  {
    assert x == (x + u)[..|x|];
    assert y == (y + v)[..|y|];
    assert u == (x + u)[|x|..];
    assert v == (y + v)[|y|..];
  }

  /** `parts.join(sep)`. */
  function Join(parts: seq<string>, sep: string): (r: string)
    ensures |parts| == 0 ==> r == ""
    ensures |parts| == 1 ==> r == parts[0]
  {
    if |parts| == 0 then ""
    else if |parts| == 1 then parts[0]
    else Join(parts[..|parts| - 1], sep) + sep + parts[|parts| - 1]
  }

  /** Number of `i` in `[0, n)` that belong to `drop`. */
  function CountBelow(drop: set<int>, n: nat): (c: nat)
    ensures c <= n
  {
    if n == 0 then 0 else CountBelow(drop, n - 1) + (if n - 1 in drop then 1 else 0)
  }

  /**
   * `s.filter((_, i) => !drop.has(i))`: every element whose index is not in
   * `drop`, in the original order.
   */
  function KeepIndices<T>(s: seq<T>, drop: set<int>): (r: seq<T>)
    ensures |r| == |s| - CountBelow(drop, |s|)
  {
    if |s| == 0 then []
    else
      var n := |s| - 1;
      var prefix := KeepIndices(s[..n], drop);
      if n in drop then prefix else prefix + [s[n]]
  }

  /** A kept element at index `i` moves down by the number of dropped indices before it. */
  lemma {:induction false} KeepIndicesAt<T>(s: seq<T>, drop: set<int>, i: nat)
    requires i < |s| && i !in drop
    ensures i - CountBelow(drop, i) < |KeepIndices(s, drop)|
    ensures KeepIndices(s, drop)[i - CountBelow(drop, i)] == s[i]
  {
    var n := |s| - 1;
    if i < n {
      KeepIndicesAt(s[..n], drop, i);
    }
  }

  /** Dropping a single valid index is the usual sequence deletion. */
  lemma {:induction false} KeepAllButOne<T>(s: seq<T>, index: int)
    requires 0 <= index < |s|
    ensures KeepIndices(s, {index}) == s[..index] + s[index + 1..]
  {
    var n := |s| - 1;
    if n == index {
      KeepIndicesNoDrop(s[..n], {index});
    } else {
      KeepAllButOne(s[..n], index);
      assert s[..index] + s[index + 1..] == s[..n][..index] + s[..n][index + 1..] + [s[n]];
    }
  }

  /** Dropping no valid index changes nothing. */
  lemma {:induction false} KeepIndicesNoDrop<T>(s: seq<T>, drop: set<int>)
    requires forall i :: 0 <= i < |s| ==> i !in drop
    ensures KeepIndices(s, drop) == s
  {
    if |s| > 0 {
      KeepIndicesNoDrop(s[..|s| - 1], drop);
    }
  }

  // ---------------------------------------------------------------------------
  // Text
  // ---------------------------------------------------------------------------

  predicate IsDigit(c: char) { '0' <= c <= '9' }

  function DigitChar(d: nat): (c: char)
    requires d < 10
    ensures IsDigit(c)
  {
    ('0' as int + d) as char
  }

  /** Decimal rendering of a non-negative integer, as JavaScript's `${n}`. */
  function NatToString(n: nat): (s: string)
    ensures |s| >= 1
    ensures forall i :: 0 <= i < |s| ==> IsDigit(s[i])
    ensures s[0] == '0' ==> n == 0
  {
    if n < 10 then [DigitChar(n)] else NatToString(n / 10) + [DigitChar(n % 10)]
  }

  /** The value of a string of decimal digits. */
  function ParseNat(s: string): nat
    requires forall i :: 0 <= i < |s| ==> IsDigit(s[i])
  {
    if |s| == 0 then 0
    else
      assert IsDigit(s[|s| - 1]);
      10 * ParseNat(s[..|s| - 1]) + (s[|s| - 1] as int - '0' as int)
  }

  /** Decimal rendering loses nothing: it can be read back. */
  lemma {:induction false} ParseNatToString(n: nat)
    ensures ParseNat(NatToString(n)) == n
  {
    if n >= 10 {
      var s := NatToString(n);
      assert s[..|s| - 1] == NatToString(n / 10);
      ParseNatToString(n / 10);
    }
  }

  /** Distinct numbers render differently. */
  lemma NatToStringInjective(a: nat, b: nat)
    requires NatToString(a) == NatToString(b)
    ensures a == b
  {
    ParseNatToString(a);
    ParseNatToString(b);
  }

  /** `s.replace(/_/g, " ")`. */
  function Prettify(s: string): (r: string)
    ensures |r| == |s|
    ensures forall i :: 0 <= i < |s| ==> r[i] == (if s[i] == '_' then ' ' else s[i])
    ensures '_' !in r
  {
    if |s| == 0 then ""
    else [if s[0] == '_' then ' ' else s[0]] + Prettify(s[1..])
  }
}
