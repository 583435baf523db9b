/** The two rules the grouping tables share: the stable sort by revenue,
    largest first (`.sort((a, b) => b.revenue - a.revenue)`), and each
    row's share of the total revenue (`totalRevenue ? revenue / totalRevenue : 0`). */
module Ordering {
  import opened Common

  /** Non-increasing by `key`. */
  ghost predicate SortedDesc<T>(s: seq<T>, key: T -> real)
  {
    forall i, j :: 0 <= i < j < |s| ==> key(s[i]) >= key(s[j])
  }

  /** Put `x` in front of the first element whose key is not larger, so that
      it stays ahead of the elements with an equal key. */
  function InsertDesc<T>(x: T, s: seq<T>, key: T -> real): (r: seq<T>)
    requires SortedDesc(s, key)
    ensures |r| == |s| + 1
    ensures r[0] == x || (s != [] && r[0] == s[0])
    ensures SortedDesc(r, key)
    ensures multiset(r) == multiset(s) + multiset{x}
  {
    if s == [] || key(x) >= key(s[0]) then [x] + s
    else
      var rest := InsertDesc(x, s[1..], key);
      assert key(s[0]) >= key(rest[0]);
      assert s == [s[0]] + s[1..];
      [s[0]] + rest
  }

  /** A stable insertion sort, largest key first. */
  function SortDesc<T>(s: seq<T>, key: T -> real): (r: seq<T>)
    ensures SortedDesc(r, key)
    ensures multiset(r) == multiset(s)
  {
    if s == [] then []
    else
      assert s == [s[0]] + s[1..];
      InsertDesc(s[0], SortDesc(s[1..], key), key)
  }

  /** `total ? revenue / total : 0`. */
  function ShareOf(revenue: real, total: real): real
  {
    if total != 0.0 then revenue / total else 0.0
  }

  /** The revenue of each row, read with `key`. */
  function Revenues<T>(s: seq<T>, key: T -> real): (r: seq<real>)
    ensures |r| == |s|
    ensures forall i :: 0 <= i < |s| ==> r[i] == key(s[i])
  {
    seq(|s|, i requires 0 <= i < |s| => key(s[i]))
  }

  /** The share of each revenue in the total of all of them. */
  function Shares(revenues: seq<real>): (r: seq<real>)
    ensures |r| == |revenues|
  {
    seq(|revenues|, i requires 0 <= i < |revenues| => ShareOf(revenues[i], RealSum(revenues)))
  }

  lemma {:induction false} ScaledSum(s: seq<real>, t: real)
    requires t != 0.0
    ensures RealSum(seq(|s|, i requires 0 <= i < |s| => s[i] / t)) == RealSum(s) / t
    decreases |s|
  {
    var scaled := seq(|s|, i requires 0 <= i < |s| => s[i] / t);
    if s != [] {
      var n := |s| - 1;
      ScaledSum(s[..n], t);
      assert scaled[..n] == seq(n, i requires 0 <= i < n => s[..n][i] / t);
    }
  }

  /** Shares add up to 1, or are all 0 when the total is 0. */
  lemma SharesSum(revenues: seq<real>)
    ensures RealSum(revenues) != 0.0 ==> RealSum(Shares(revenues)) == 1.0
    ensures RealSum(revenues) == 0.0 ==> forall i :: 0 <= i < |revenues| ==> Shares(revenues)[i] == 0.0
  {
    var t := RealSum(revenues);
    if t != 0.0 {
      var scaled := seq(|revenues|, i requires 0 <= i < |revenues| => revenues[i] / t);
      ScaledSum(revenues, t);
      assert RealSum(scaled) == t / t == 1.0;
      assert Shares(revenues) == scaled;
    }
  }

  lemma {:induction false} PartBelowSum(s: seq<real>, k: int)
    requires 0 <= k < |s|
    requires forall i :: 0 <= i < |s| ==> s[i] >= 0.0
    ensures 0.0 <= s[k] <= RealSum(s)
    decreases |s|
  {
    var n := |s| - 1;
    if k < n {
      PartBelowSum(s[..n], k);
    } else {
      if n > 0 {
        PartBelowSum(s[..n], 0);
      }
    }
  }

  /** With no negative revenue every share lies in [0, 1]. */
  lemma SharesBounded(revenues: seq<real>)
    requires forall i :: 0 <= i < |revenues| ==> revenues[i] >= 0.0
    ensures forall i :: 0 <= i < |revenues| ==> 0.0 <= Shares(revenues)[i] <= 1.0
  {
    forall i | 0 <= i < |revenues|
      ensures 0.0 <= Shares(revenues)[i] <= 1.0
    {
      PartBelowSum(revenues, i);
    }
  }

  /** A sequence without repeats holds each value at most once. */
  lemma {:induction false} AtMostOnce<T>(s: seq<T>, x: T)
    requires forall i, j :: 0 <= i < j < |s| ==> s[i] != s[j]
    ensures multiset(s)[x] <= 1
    decreases |s|
  {
    if s != [] {
      var n := |s| - 1;
      assert s == s[..n] + [s[n]];
      AtMostOnce(s[..n], x);
      if s[n] == x {
        assert x !in s[..n];
      }
    }
  }

  /** Two equal entries at different places count twice. */
  lemma TwoCopies<T>(t: seq<T>, a: int, b: int)
    requires 0 <= a < b < |t|
    ensures multiset(t)[t[a]] >= (if t[a] == t[b] then 2 else 1)
  {
    assert t == t[..a] + [t[a]] + t[a + 1..b] + [t[b]] + t[b + 1..];
  }

  /** Equal multisets keep a sequence free of repeats. */
  lemma NoRepeatsPermuted<T>(s: seq<T>, t: seq<T>, a: int, b: int)
    requires multiset(s) == multiset(t)
    requires forall i, j :: 0 <= i < j < |s| ==> s[i] != s[j]
    requires 0 <= a < b < |t|
    ensures t[a] != t[b]
  {
    AtMostOnce(s, t[a]);
    TwoCopies(t, a, b);
  }
}
