/**
 * The ranking step of the dashboard: a stable sort into non-increasing order
 * of a numeric key (`sort((a, b) => key(b) - key(a))`) and the leading slice
 * (`slice(0, n)`).
 */
module Ranking {
  import opened Util

  /** `s` is in non-increasing order of `key`. */
  predicate SortedDesc<T>(s: seq<T>, key: T -> int) {
    forall i, j :: 0 <= i < j < |s| ==> key(s[i]) >= key(s[j])
  }

  /**
   * Places `x` after every element whose key is at least its own, so equal
   * keys stay in arrival order.
   */
  function Insert<T>(s: seq<T>, x: T, key: T -> int): seq<T>
    requires SortedDesc(s, key)
  {
    if |s| == 0 then [x]
    else
      var n := |s| - 1;
      if key(s[n]) >= key(x) then s + [x]
      else Insert(s[..n], x, key) + [s[n]]
  }

  /** Every key in `s` is at least `k`. */
  predicate AtLeast<T>(s: seq<T>, key: T -> int, k: int) {
    forall i :: 0 <= i < |s| ==> key(s[i]) >= k
  }

  /** Appending an element no larger than any key keeps a ranking sorted. */
  lemma AppendSorted<T>(s: seq<T>, y: T, key: T -> int)
    requires SortedDesc(s, key) && AtLeast(s, key, key(y))
    ensures SortedDesc(s + [y], key)
  {
  }

  /** Inserting an element with a key of at least `k` keeps every key at least `k`. */
  lemma {:induction false} InsertAtLeast<T>(s: seq<T>, x: T, key: T -> int, k: int)
    requires SortedDesc(s, key) && AtLeast(s, key, k) && key(x) >= k
    ensures AtLeast(Insert(s, x, key), key, k)
  {
    if |s| > 0 {
      var n := |s| - 1;
      if key(s[n]) < key(x) {
        InsertAtLeast(s[..n], x, key, k);
      }
    }
  }

  /** Inserting into a ranking gives a ranking. */
  lemma {:induction false} InsertSorted<T>(s: seq<T>, x: T, key: T -> int)
    requires SortedDesc(s, key)
    ensures SortedDesc(Insert(s, x, key), key)
  {
    if |s| > 0 {
      var n := |s| - 1;
      if key(s[n]) >= key(x) {
        AppendSorted(s, x, key);
      } else {
        InsertSorted(s[..n], x, key);
        InsertAtLeast(s[..n], x, key, key(s[n]));
        AppendSorted(Insert(s[..n], x, key), s[n], key);
      }
    }
  }

  /** Inserting adds exactly the one element `x`. */
  lemma {:induction false} InsertAdds<T>(s: seq<T>, x: T, key: T -> int)
    requires SortedDesc(s, key)
    ensures multiset(Insert(s, x, key)) == multiset(s) + multiset{x}
  {
    if |s| > 0 {
      var n := |s| - 1;
      assert s == s[..n] + [s[n]];
      if key(s[n]) < key(x) {
        InsertAdds(s[..n], x, key);
      }
    }
  }

  /** The stable sort: each element in turn is inserted into the sorted prefix. */
  function SortDesc<T>(s: seq<T>, key: T -> int): (r: seq<T>)
    ensures SortedDesc(r, key)
    ensures multiset(r) == multiset(s)
    ensures |r| == |s|
  {
    if |s| == 0 then []
    else
      var n := |s| - 1;
      assert s == s[..n] + [s[n]];
      InsertSorted(SortDesc(s[..n], key), s[n], key);
      InsertAdds(SortDesc(s[..n], key), s[n], key);
      Insert(SortDesc(s[..n], key), s[n], key)
  }

  /** Inserting an element adds its value to any sum over the sequence. */
  lemma {:induction false} SumOfInsert<T>(s: seq<T>, x: T, key: T -> int, f: T -> int)
    requires SortedDesc(s, key)
    ensures SumOf(Insert(s, x, key), f) == SumOf(s, f) + f(x)
  {
    if |s| > 0 {
      var n := |s| - 1;
      if key(s[n]) < key(x) {
        var front := Insert(s[..n], x, key);
        SumOfInsert(s[..n], x, key, f);
        assert (front + [s[n]])[..|front|] == front;
      }
    }
  }

  /** Sorting does not change any sum over the sequence. */
  lemma {:induction false} SumOfSortDesc<T>(s: seq<T>, key: T -> int, f: T -> int)
    ensures SumOf(SortDesc(s, key), f) == SumOf(s, f)
  {
    if |s| > 0 {
      var n := |s| - 1;
      SumOfSortDesc(s[..n], key, f);
      SumOfInsert(SortDesc(s[..n], key), s[n], key, f);
    }
  }

  /** `s.slice(0, n)`. */
  function Top<T>(s: seq<T>, n: nat): (r: seq<T>)
    ensures |r| == if |s| <= n then |s| else n
    ensures |s| <= n ==> r == s
    ensures forall i :: 0 <= i < |r| ==> r[i] == s[i]
  {
    if |s| <= n then s else s[..n]
  }

  /** The leading slice of a sorted ranking is sorted and made of ranked elements. */
  lemma TopOfSorted<T>(s: seq<T>, key: T -> int, n: nat)
    requires SortedDesc(s, key)
    ensures SortedDesc(Top(s, n), key)
    ensures multiset(Top(s, n)) <= multiset(s)
    ensures forall i, j :: 0 <= i < |Top(s, n)| && |Top(s, n)| <= j < |s| ==> key(Top(s, n)[i]) >= key(s[j])
  {
    if |s| > n {
      assert s == s[..n] + s[n..];
    }
  }

  /**
   * `top` is a top-`n` list of `rows` by `key`: it holds `n` rows, or all of
   * them when there are fewer, sorted and drawn from `rows`, and no row of the
   * ranking left out of it has a higher key than a row kept.
   */
  ghost predicate IsTopOf<T>(top: seq<T>, rows: seq<T>, key: T -> int, n: nat) {
    && |top| == (if |rows| <= n then |rows| else n)
    && SortedDesc(top, key)
    && multiset(top) <= multiset(rows)
    && (|rows| <= n ==> multiset(top) == multiset(rows))
    && forall x, i :: x in multiset(rows) - multiset(top) && 0 <= i < |top| ==> key(top[i]) >= key(x)
  }

  /** The top `n` of a ranking: their number, their order, and where they come from. */
  lemma TopOfRanking<T>(rows: seq<T>, key: T -> int, n: nat)
    ensures IsTopOf(Top(SortDesc(rows, key), n), rows, key, n)
  {
    var sorted := SortDesc(rows, key);
    TopOfSorted(sorted, key, n);
    LeftOutRanksLower(sorted, Top(sorted, n), key);
  }

  /** A prefix that outranks the rest of its list outranks every element it leaves out. */
  lemma LeftOutRanksLower<T>(sorted: seq<T>, top: seq<T>, key: T -> int)
    requires |top| <= |sorted| && forall i :: 0 <= i < |top| ==> top[i] == sorted[i]
    requires forall i, j :: 0 <= i < |top| && |top| <= j < |sorted| ==> key(top[i]) >= key(sorted[j])
    ensures forall x, i :: x in multiset(sorted) - multiset(top) && 0 <= i < |top| ==> key(top[i]) >= key(x)
  {
    var rest := sorted[|top|..];
    assert sorted == top + rest;
    assert multiset(sorted) == multiset(top) + multiset(rest);
    forall x, i | x in multiset(sorted) - multiset(top) && 0 <= i < |top|
      ensures key(top[i]) >= key(x)
    {
      assert x in rest;
      var j :| 0 <= j < |rest| && rest[j] == x;
      assert sorted[|top| + j] == x;
    }
  }
}
