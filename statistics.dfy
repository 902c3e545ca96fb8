/** `Series.median()` on a column of integers: the middle value of the sorted
    values, or the mean of the two middle values when their number is even. */
module Statistics {

  predicate Ascending(s: seq<int>) {
    forall i, j :: 0 <= i < j < |s| ==> s[i] <= s[j]
  }

  lemma ConsAscending(h: int, t: seq<int>)
    requires Ascending(t)
    requires forall y :: y in t ==> h <= y
    ensures Ascending([h] + t)
  {
    var r := [h] + t;
    forall i, j | 0 <= i < j < |r|
      ensures r[i] <= r[j]
    {
      assert r[j] == t[j - 1];
      if i > 0 {
        assert r[i] == t[i - 1];
      } else {
        assert t[j - 1] in t;
      }
    }
  }

  /** Places `x` into an ascending sequence. */
  function InsertAscending(s: seq<int>, x: int): (r: seq<int>)
    requires Ascending(s)
    ensures Ascending(r)
    ensures |r| == |s| + 1
    ensures multiset(r) == multiset(s) + multiset{x}
  {
    if s == [] || x <= s[0] then
      ConsAscending(x, s);
      [x] + s
    else
      var tail := InsertAscending(s[1..], x);
      assert s == [s[0]] + s[1..];
      forall y | y in tail
        ensures s[0] <= y
      {
        assert y in multiset(tail);
        if y != x {
          assert y in multiset(s);
          HeadIsLeast(s, y);
        }
      }
      ConsAscending(s[0], tail);
      [s[0]] + tail
  }

  /** The values of `xs` in ascending order. */
  function SortAscending(xs: seq<int>): (r: seq<int>)
    ensures Ascending(r)
    ensures |r| == |xs|
    ensures multiset(r) == multiset(xs)
  {
    if xs == [] then []
    else
      assert xs == [xs[0]] + xs[1..];
      assert multiset(xs) == multiset(xs[1..]) + multiset{xs[0]};
      InsertAscending(SortAscending(xs[1..]), xs[0])
  }

  function Median(xs: seq<int>): real
    requires xs != []
  {
    var s := SortAscending(xs);
    var n := |s|;
    if n % 2 == 1 then s[n / 2] as real
    else (s[n / 2 - 1] + s[n / 2]) as real / 2.0
  }

  lemma SortedWithin(xs: seq<int>, lo: int, hi: int, i: nat)
    requires forall x :: x in xs ==> lo <= x <= hi
    requires i < |SortAscending(xs)|
    ensures lo <= SortAscending(xs)[i] <= hi
  {
    var s := SortAscending(xs);
    assert s[i] in multiset(s);
    assert s[i] in multiset(xs);
    assert s[i] in xs;
  }

  /** The median lies within any bounds of the values. */
  lemma MedianWithin(xs: seq<int>, lo: int, hi: int)
    requires xs != []
    requires forall x :: x in xs ==> lo <= x <= hi
    ensures lo as real <= Median(xs) <= hi as real
  {
    var n := |xs|;
    SortedWithin(xs, lo, hi, n / 2);
    if n % 2 == 0 {
      SortedWithin(xs, lo, hi, n / 2 - 1);
    }
  }

  /** For an odd number of values the median is one of them. */
  lemma MedianOfOddCount(xs: seq<int>)
    requires |xs| % 2 == 1
    ensures exists x :: x in xs && Median(xs) == x as real
  {
    var s := SortAscending(xs);
    var x := s[|s| / 2];
    assert x in multiset(s);
    assert x in multiset(xs) && x in xs;
  }

  /** The median does not depend on the order of the values. */
  lemma MedianOfPermutation(xs: seq<int>, ys: seq<int>)
    requires xs != [] && multiset(xs) == multiset(ys)
    ensures ys != [] && Median(xs) == Median(ys)
  {
    assert |ys| == |multiset(xs)|;
    AscendingUnique(SortAscending(xs), SortAscending(ys));
  }

  lemma AscendingTail(a: seq<int>)
    requires Ascending(a) && a != []
    ensures Ascending(a[1..])
  {
  }

  lemma HeadIsLeast(a: seq<int>, y: int)
    requires Ascending(a) && y in multiset(a)
    ensures a != [] && a[0] <= y
  {
    assert y in a;
    var k :| 0 <= k < |a| && a[k] == y;
  }

  /** Two ascending sequences holding the same values are equal. */
  lemma {:induction false} AscendingUnique(a: seq<int>, b: seq<int>)
    requires Ascending(a) && Ascending(b) && multiset(a) == multiset(b)
    ensures a == b
  {
    if a != [] {
      assert a[0] in multiset(a);
      HeadIsLeast(b, a[0]);
      assert b[0] in multiset(b);
      HeadIsLeast(a, b[0]);
      AscendingTail(a);
      AscendingTail(b);
      assert a[0] == b[0];
      assert a == [a[0]] + a[1..] && b == [b[0]] + b[1..];
      assert multiset(a) == multiset{a[0]} + multiset(a[1..]);
      assert multiset(b) == multiset{b[0]} + multiset(b[1..]);
      assert multiset(a[1..]) == multiset(a) - multiset{a[0]};
      assert multiset(b[1..]) == multiset(b) - multiset{b[0]};
      AscendingUnique(a[1..], b[1..]);
    } else {
      assert |b| == |multiset(a)|;
    }
  }
}
