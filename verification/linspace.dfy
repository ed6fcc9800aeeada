/** Integer sampling grids produced by `int(linspace(0, last, m))`, taken as the
    exact rational grid truncated toward zero (the floating-point rounding of
    the library call is not modelled), and selection of elements by index. */
module Spacing {

  /** The i-th of m evenly spaced points from 0 to `last`, truncated. */
  function Point(last: nat, m: nat, i: nat): nat
    requires i < m
  {
    if m == 1 then 0 else i * last / (m - 1)
  }

  /** `int(linspace(0, last, m))`: m evenly spaced indices that start at 0,
      end at `last` when there are two or more, never go down, and strictly
      increase when there are no more than `last + 1` of them (so no two
      sampled indices coincide). */
  function Linspace(last: nat, m: nat): (r: seq<nat>)
    ensures |r| == m
    ensures forall i :: 0 <= i < m ==> r[i] <= last
    ensures m >= 1 ==> r[0] == 0
    ensures m >= 2 ==> r[m - 1] == last
    ensures NonDecreasing(r)
    ensures m <= last + 1 ==> StrictlyIncreasing(r)
  {
    PointsBounded(last, m);
    var r := seq(m, i requires 0 <= i < m => Point(last, m, i));
    LinspaceShape(last, m, r);
    r
  }

  /** Every index of the grid is below n. */
  ghost predicate InRange(idx: seq<nat>, n: nat) {
    forall i :: 0 <= i < |idx| ==> idx[i] < n
  }

  ghost predicate NonDecreasing(idx: seq<nat>) {
    forall i, j :: 0 <= i <= j < |idx| ==> idx[i] <= idx[j]
  }

  ghost predicate StrictlyIncreasing(idx: seq<nat>) {
    forall i, j :: 0 <= i < j < |idx| ==> idx[i] < idx[j]
  }

  /** The elements of s at the positions idx, in the order of idx. */
  function Select<T>(s: seq<T>, idx: seq<nat>): (r: seq<T>)
    requires InRange(idx, |s|)
    ensures |r| == |idx|
    ensures forall j :: 0 <= j < |r| ==> r[j] == s[idx[j]]
    ensures forall j :: 0 <= j < |r| ==> r[j] in s
  {
    seq(|idx|, j requires 0 <= j < |idx| => s[idx[j]])
  }

  /** The positions of the elements of s that `keep` accepts, in increasing
      order: each one is kept, and no kept position is missed. */
  function Positions<T>(s: seq<T>, keep: T -> bool): (p: seq<nat>)
    ensures InRange(p, |s|)
    ensures forall j :: 0 <= j < |p| ==> p[j] < |s| && keep(s[p[j]])
    ensures forall k :: 0 <= k < |s| && keep(s[k]) ==> k in p
    ensures StrictlyIncreasing(p)
    ensures |p| <= |s|
  {
    if |s| == 0 then []
    else
      var prev := Positions(s[..|s| - 1], keep);
      if keep(s[|s| - 1]) then prev + [|s| - 1] else prev
  }

  /** The grid is evenly spaced: with m >= 2 points, point i is the largest
      integer not above `i * last / (m - 1)`, so consecutive points sit
      `last / (m - 1)` apart before truncation. */
  lemma LinspaceValue(last: nat, m: nat, i: nat)
    requires 2 <= m && i < m
    ensures (m - 1) * Linspace(last, m)[i] <= i * last < (m - 1) * Linspace(last, m)[i] + (m - 1)
  {
    DivBounds(i * last, m - 1);
  }

  lemma MulMonotone(a: nat, b: nat, c: nat)
    requires a <= b
    ensures a * c <= b * c
  {
    assert b * c == a * c + (b - a) * c;
  }

  /** Cancelling a positive factor from a strict inequality of products. */
  lemma MulCancelLess(x: nat, y: nat, d: nat)
    requires d > 0 && d * x < d * y
    ensures x < y
  {
    if y <= x {
      MulMonotone(y, x, d);
    }
  }

  lemma DivBounds(a: nat, d: nat)
    requires d > 0
    ensures d * (a / d) <= a < d * (a / d) + d
  {
  }

  lemma DivMonotone(a: nat, b: nat, d: nat)
    requires a <= b && d > 0
    ensures a / d <= b / d
  {
    DivBounds(a, d);
    DivBounds(b, d);
    var qa, qb := a / d, b / d;
    assert d * qa < d * (qb + 1);
    MulCancelLess(qa, qb + 1, d);
  }

  lemma DivExact(k: nat, d: nat)
    requires d > 0
    ensures d * k / d == k
  {
    DivBounds(d * k, d);
    var q := d * k / d;
    assert d * q <= d * k < d * q + d;
    MulCancelLess(q, k + 1, d);
    MulCancelLess(k, q + 1, d);
  }

  /** Adding at least one divisor's worth to the numerator moves the quotient up. */
  lemma DivStep(a: nat, s: nat, d: nat)
    requires s >= d > 0
    ensures (a + s) / d >= a / d + 1
  {
    DivBounds(a, d);
    DivBounds(a + s, d);
    var q, q' := a / d, (a + s) / d;
    assert d * (q + 1) <= a + s;
    assert d * (q + 1) < d * (q' + 1);
    MulCancelLess(q + 1, q' + 1, d);
  }

  lemma PointBounded(last: nat, m: nat, i: nat)
    requires i < m
    ensures Point(last, m, i) <= last
  {
    if m > 1 {
      MulMonotone(i, m - 1, last);
      DivMonotone(i * last, (m - 1) * last, m - 1);
      DivExact(last, m - 1);
      assert (m - 1) * last == last * (m - 1);
    }
  }

  lemma PointsBounded(last: nat, m: nat)
    ensures forall i :: 0 <= i < m ==> Point(last, m, i) <= last
  {
    forall i | 0 <= i < m
      ensures Point(last, m, i) <= last
    {
      PointBounded(last, m, i);
    }
  }

  lemma PointMonotone(last: nat, m: nat, i: nat, j: nat)
    requires i <= j < m
    ensures Point(last, m, i) <= Point(last, m, j)
  {
    if m > 1 {
      MulMonotone(i, j, last);
      DivMonotone(i * last, j * last, m - 1);
    }
  }

  lemma PointStrict(last: nat, m: nat, i: nat, j: nat)
    requires i < j < m <= last + 1
    ensures Point(last, m, i) < Point(last, m, j)
  {
    MulMonotone(i + 1, j, last);
    DivMonotone((i + 1) * last, j * last, m - 1);
    assert (i + 1) * last == i * last + last;
    DivStep(i * last, last, m - 1);
  }

  /** The shape of the grid, proved point by point. */
  lemma LinspaceShape(last: nat, m: nat, r: seq<nat>)
    requires r == seq(m, i requires 0 <= i < m => Point(last, m, i))
    ensures m >= 1 ==> r[0] == 0
    ensures m >= 2 ==> r[m - 1] == last
    ensures NonDecreasing(r)
    ensures m <= last + 1 ==> StrictlyIncreasing(r)
  {
    if m >= 2 {
      DivExact(last, m - 1);
    }
    forall i, j | 0 <= i <= j < m
      ensures r[i] <= r[j]
    {
      PointMonotone(last, m, i, j);
    }
    if m <= last + 1 {
      forall i, j | 0 <= i < j < m
        ensures r[i] < r[j]
      {
        PointStrict(last, m, i, j);
      }
    }
  }
}
