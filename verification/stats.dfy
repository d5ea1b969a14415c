/**
 * Summary rows over the per-iteration report rows: average, median, min and
 * max, each reduced column by column. A row is a label (the iteration number
 * or the summary's name) and its numeric cells; the label is the first table
 * column, so no reduction ever reads it as a number.
 */
module Stats {
  import opened Wrappers

  datatype Label = Iteration(number: int) | Name(text: string)

  /** A report row: the first table cell, then the numeric cells. */
  datatype Row = Row(heading: Label, cells: seq<int>)

  /** All rows have as many numeric cells as the first. */
  predicate Rectangular(rows: seq<Row>) {
    forall i :: 0 <= i < |rows| ==> |rows[i].cells| == |rows[0].cells|
  }

  /** The number of numeric columns. */
  function Width(rows: seq<Row>): (width: nat) {
    if |rows| == 0 then 0 else |rows[0].cells|
  }

  /** Numeric column `j`, top to bottom. */
  function Column(rows: seq<Row>, j: nat): (c: seq<int>)
    requires Rectangular(rows) && j < Width(rows)
    ensures |c| == |rows|
  {
    seq(|rows|, i requires 0 <= i < |rows| => rows[i].cells[j])
  }

  function Sum(s: seq<int>): (total: int) {
    if |s| == 0 then 0 else Sum(s[..|s| - 1]) + s[|s| - 1]
  }

  /** The smallest element. */
  function Least(s: seq<int>): (m: int)
    requires |s| > 0
    ensures m in s
    ensures forall i :: 0 <= i < |s| ==> m <= s[i]
  {
    if |s| == 1 then s[0]
    else
      var rest := Least(s[1..]);
      assert forall i :: 1 <= i < |s| ==> s[i] == s[1..][i - 1];
      if s[0] <= rest then s[0] else rest
  }

  /** The largest element. */
  function Greatest(s: seq<int>): (m: int)
    requires |s| > 0
    ensures m in s
    ensures forall i :: 0 <= i < |s| ==> s[i] <= m
  {
    if |s| == 1 then s[0]
    else
      var rest := Greatest(s[1..]);
      assert forall i :: 1 <= i < |s| ==> s[i] == s[1..][i - 1];
      if s[0] >= rest then s[0] else rest
  }

  /**
   * PHP's `round(n / d)` for a positive divisor: the integer nearest to
   * n / d, a tie going away from zero.
   */
  function RoundHalfAway(n: int, d: int): (r: int)
    requires d > 0
    ensures n >= 0 ==> -d <= 2 * (n - r * d) < d
    ensures n < 0 ==> -d < 2 * (n - r * d) <= d
  {
    if n >= 0 then
      var q := (2 * n + d) / (2 * d);
      assert 2 * n + d == q * (2 * d) + (2 * n + d) % (2 * d);
      q
    else
      var q := (-2 * n + d) / (2 * d);
      assert -2 * n + d == q * (2 * d) + (-2 * n + d) % (2 * d);
      -q
  }

  predicate Ascending(s: seq<int>) {
    forall i, k :: 0 <= i < k < |s| ==> s[i] <= s[k]
  }

  /** Inserts `x` before the first element it does not exceed. */
  function Insert(x: int, s: seq<int>): (r: seq<int>)
    ensures |r| == |s| + 1
  {
    if |s| == 0 then [x]
    else if x <= s[0] then [x] + s
    else [s[0]] + Insert(x, s[1..])
  }

  /** PHP's `sort(..., SORT_NUMERIC)` on integers: ascending order. */
  function SortAscending(s: seq<int>): (r: seq<int>)
    ensures |r| == |s|
  {
    if |s| == 0 then [] else Insert(s[0], SortAscending(s[1..]))
  }

  /** An element no larger than the head of an ascending sequence can go in front of it. */
  lemma ConsAscending(h: int, t: seq<int>)
    requires Ascending(t) && (|t| > 0 ==> h <= t[0])
    ensures Ascending([h] + t)
  {
    var r := [h] + t;
    forall i, k | 0 <= i < k < |r|
      ensures r[i] <= r[k]
    {
      if i == 0 {
        assert r[k] == t[k - 1] && t[0] <= t[k - 1];
      } else {
        assert r[i] == t[i - 1] && r[k] == t[k - 1];
      }
    }
  }

  /** Insertion adds exactly `x` to the elements. */
  lemma {:induction false} InsertAdds(x: int, s: seq<int>)
    ensures multiset(Insert(x, s)) == multiset(s) + multiset{x}
  {
    if |s| > 0 && x > s[0] {
      InsertAdds(x, s[1..]);
      assert s == [s[0]] + s[1..];
      assert multiset(Insert(x, s)) == multiset{s[0]} + multiset(Insert(x, s[1..]));
    }
  }

  /** Inserting into an ascending sequence keeps it ascending. */
  lemma {:induction false} InsertSorted(x: int, s: seq<int>)
    requires Ascending(s)
    ensures Ascending(Insert(x, s))
  {
    if |s| == 0 {
    } else if x <= s[0] {
      ConsAscending(x, s);
    } else {
      var tail := s[1..];
      var rest := Insert(x, tail);
      assert Ascending(tail);
      InsertSorted(x, tail);
      assert rest[0] == if |tail| == 0 || x <= tail[0] then x else tail[0];
      assert |tail| > 0 ==> s[0] <= tail[0];
      ConsAscending(s[0], rest);
    }
  }

  /** The sort yields an ascending sequence. */
  lemma {:induction false} SortOrders(s: seq<int>)
    ensures Ascending(SortAscending(s))
  {
    if |s| > 0 {
      SortOrders(s[1..]);
      InsertSorted(s[0], SortAscending(s[1..]));
    }
  }

  /** The sort keeps exactly the input's elements. */
  lemma {:induction false} SortPermutes(s: seq<int>)
    ensures multiset(SortAscending(s)) == multiset(s)
  {
    if |s| > 0 {
      SortPermutes(s[1..]);
      InsertAdds(s[0], SortAscending(s[1..]));
      assert s == [s[0]] + s[1..];
    }
  }

  /** The sort yields an ascending permutation of its input. */
  lemma SortSorted(s: seq<int>)
    ensures Ascending(SortAscending(s))
    ensures multiset(SortAscending(s)) == multiset(s)
  {
    SortOrders(s);
    SortPermutes(s);
  }

  /** The median of an ascending sequence: the middle element, or the rounded mean of the two middle ones. */
  function MedianOfSorted(s: seq<int>): (median: int)
    requires |s| > 0
  {
    var index := |s| / 2;
    if |s| % 2 == 1 then s[index] else RoundHalfAway(s[index - 1] + s[index], 2)
  }

  // Rounding

  /** A strictly larger factor scales to at least one divisor more. */
  lemma MulStep(a: int, b: int, d: int)
    requires a < b && d > 0
    ensures a * d + d <= b * d
  {
    var k := b - a - 1;
    assert k * d >= 0;
    assert b * d == (a + 1 + k) * d == a * d + d + k * d;
  }

  /** An integer within half a divisor of `n`, scaled, lies within any integer bounds of n / d. */
  lemma NearWithin(n: int, d: int, r: int, lo: int, hi: int)
    requires d > 0 && lo * d <= n <= hi * d
    requires -d <= 2 * (n - r * d) <= d
    ensures lo <= r <= hi
  {
    if r > hi {
      MulStep(hi, r, d);
    }
    if r < lo {
      MulStep(r, lo, d);
    }
  }

  /** The rounded quotient stays within any integer bounds of the exact quotient. */
  lemma RoundWithin(n: int, d: int, lo: int, hi: int)
    requires d > 0 && lo * d <= n <= hi * d
    ensures lo <= RoundHalfAway(n, d) <= hi
  {
    NearWithin(n, d, RoundHalfAway(n, d), lo, hi);
  }

  /** An exact quotient is returned unchanged. */
  lemma RoundExact(k: int, d: int)
    requires d > 0
    ensures RoundHalfAway(k * d, d) == k
  {
    RoundWithin(k * d, d, k, k);
  }

  /** Rounding half away from zero is symmetric about zero. */
  lemma RoundSymmetric(n: int, d: int)
    requires d > 0
    ensures RoundHalfAway(-n, d) == -RoundHalfAway(n, d)
  {
  }

  // Sums

  lemma {:induction false} SumAtLeast(s: seq<int>, lo: int)
    requires forall i :: 0 <= i < |s| ==> lo <= s[i]
    ensures lo * |s| <= Sum(s)
  {
    if |s| > 0 {
      SumAtLeast(s[..|s| - 1], lo);
    }
  }

  lemma {:induction false} SumAtMost(s: seq<int>, hi: int)
    requires forall i :: 0 <= i < |s| ==> s[i] <= hi
    ensures Sum(s) <= hi * |s|
  {
    if |s| > 0 {
      SumAtMost(s[..|s| - 1], hi);
    }
  }

  /** The rounded mean lies between the smallest and the largest element. */
  lemma MeanWithin(s: seq<int>)
    requires |s| > 0
    ensures Least(s) <= RoundHalfAway(Sum(s), |s|) <= Greatest(s)
  {
    SumAtLeast(s, Least(s));
    SumAtMost(s, Greatest(s));
    RoundWithin(Sum(s), |s|, Least(s), Greatest(s));
  }

  /** The rounded mean of equal elements is that element. */
  lemma MeanOfEqual(s: seq<int>, c: int)
    requires |s| > 0 && forall i :: 0 <= i < |s| ==> s[i] == c
    ensures RoundHalfAway(Sum(s), |s|) == c
  {
    MeanWithin(s);
  }

  // Medians

  /** Every element of the sorted sequence is an element of the original. */
  lemma SortedElement(s: seq<int>, k: nat)
    requires k < |s|
    ensures Least(s) <= SortAscending(s)[k] <= Greatest(s)
  {
    var t := SortAscending(s);
    SortSorted(s);
    assert t[k] in multiset(t);
    assert t[k] in multiset(s);
    assert t[k] in s;
  }

  /** The rounded mean of two integers lies between them. */
  lemma PairMeanWithin(a: int, b: int)
    requires a <= b
    ensures a <= RoundHalfAway(a + b, 2) <= b
  {
    RoundWithin(a + b, 2, a, b);
  }

  /** The median of an ascending sequence lies within any bounds of its elements. */
  lemma MedianOfSortedWithin(t: seq<int>, lo: int, hi: int)
    requires |t| > 0 && Ascending(t)
    requires forall k :: 0 <= k < |t| ==> lo <= t[k] <= hi
    ensures lo <= MedianOfSorted(t) <= hi
  {
    var index := |t| / 2;
    if |t| % 2 == 0 {
      PairMeanWithin(t[index - 1], t[index]);
    }
  }

  /** The median lies between the smallest and the largest element. */
  lemma MedianWithin(s: seq<int>)
    requires |s| > 0
    ensures Least(s) <= MedianOfSorted(SortAscending(s)) <= Greatest(s)
  {
    var t := SortAscending(s);
    forall k | 0 <= k < |t|
      ensures Least(s) <= t[k] <= Greatest(s)
    {
      SortedElement(s, k);
    }
    SortSorted(s);
    MedianOfSortedWithin(t, Least(s), Greatest(s));
  }

  /** The median of equal elements is that element. */
  lemma MedianOfEqual(s: seq<int>, c: int)
    requires |s| > 0 && forall i :: 0 <= i < |s| ==> s[i] == c
    ensures MedianOfSorted(SortAscending(s)) == c
  {
    MedianWithin(s);
  }

  /** With an odd count the median is an element that has as many elements at or below it as at or above it. */
  lemma MedianOddIsMiddle(s: seq<int>)
    requires |s| % 2 == 1
    ensures var t := SortAscending(s);
      MedianOfSorted(t) == t[|s| / 2]
      && (forall k :: 0 <= k < |s| / 2 ==> t[k] <= MedianOfSorted(t))
      && (forall k :: |s| / 2 < k < |s| ==> MedianOfSorted(t) <= t[k])
  {
    SortSorted(s);
  }

  /** Worked values: medians of [10, 20] and [10, 20, 30], rounded means of [1, 2, 3] and [1, 2]. */
  lemma WorkedExamples()
    ensures MedianOfSorted(SortAscending([20, 10])) == 15
    ensures MedianOfSorted(SortAscending([30, 10, 20])) == 20
    ensures RoundHalfAway(Sum([1, 2, 3]), 3) == 2
    ensures RoundHalfAway(Sum([1, 2]), 2) == 2
  {
    assert SortAscending([10]) == [10];
    assert SortAscending([20, 10]) == [10, 20];
    assert SortAscending([10, 20]) == [10, 20];
    assert SortAscending([30, 10, 20]) == [10, 20, 30];
    assert [1, 2, 3][..2] == [1, 2] && [1, 2][..1] == [1] && [1][..0] == [];
  }

  // Column reductions

  /** Column `j`'s elements are the rows' cells in that column. */
  lemma ColumnAt(rows: seq<Row>, j: nat)
    requires Rectangular(rows) && j < Width(rows)
    ensures forall i :: 0 <= i < |rows| ==> Column(rows, j)[i] == rows[i].cells[j]
  {
  }

  /** The smallest element of a column so far, with the row it came from. */
  ghost predicate LeastUpTo(rows: seq<Row>, v: int, f: nat, j: nat, n: nat) {
    f < n <= |rows| && j < |rows[f].cells| && v == rows[f].cells[j]
    && forall i :: 0 <= i < n ==> j < |rows[i].cells| && v <= rows[i].cells[j]
  }

  /** The largest element of a column so far, with the row it came from. */
  ghost predicate GreatestUpTo(rows: seq<Row>, v: int, f: nat, j: nat, n: nat) {
    f < n <= |rows| && j < |rows[f].cells| && v == rows[f].cells[j]
    && forall i :: 0 <= i < n ==> j < |rows[i].cells| && rows[i].cells[j] <= v
  }

  /**
   * Smallest value per numeric column. The first row initialises each
   * column, later rows replace it when smaller; no rows give no row.
   */
  method Min(rows: seq<Row>) returns (min: Option<Row>)
    requires Rectangular(rows)
    ensures min.None? <==> |rows| == 0
    ensures min.Some? ==> min.value.heading == Name("min") && |min.value.cells| == Width(rows)
    ensures min.Some? ==> forall j :: 0 <= j < Width(rows) ==> min.value.cells[j] == Least(Column(rows, j))
    ensures |rows| == 1 ==> min == Some(Row(Name("min"), rows[0].cells))
  {
    var acc: seq<int> := [];
    ghost var from: seq<nat> := [];
    var labelled := false;
    var key := 0;
    while key < |rows|
      invariant 0 <= key <= |rows|
      invariant labelled <==> key > 0
      invariant |acc| == |from| == (if key == 0 then 0 else Width(rows))
      invariant forall j :: 0 <= j < |acc| ==> LeastUpTo(rows, acc[j], from[j], j, key)
    {
      var line := rows[key];
      labelled := true;
      ghost var next := key + 1;
      var col := 0;
      while col < |line.cells|
        invariant 0 <= col <= |line.cells| == Width(rows)
        invariant |acc| == |from| == (if key == 0 then col else Width(rows))
        invariant forall j :: 0 <= j < col ==> LeastUpTo(rows, acc[j], from[j], j, next)
        invariant forall j :: col <= j < |acc| ==> LeastUpTo(rows, acc[j], from[j], j, key)
      {
        if key == 0 {
          acc := acc + [line.cells[col]];
          from := from + [key];
        } else if line.cells[col] < acc[col] {
          acc := acc[col := line.cells[col]];
          from := from[col := key];
        }
        col := col + 1;
      }
      key := key + 1;
    }
    if !labelled {
      return None;
    }
    forall j | 0 <= j < Width(rows)
      ensures acc[j] == Least(Column(rows, j))
    {
      ColumnAt(rows, j);
      assert LeastUpTo(rows, acc[j], from[j], j, |rows|);
      var c := Column(rows, j);
      assert acc[j] == c[from[j]];
      assert Least(c) <= acc[j];
      assert acc[j] <= Least(c);
    }
    min := Some(Row(Name("min"), acc));
    if |rows| == 1 {
      assert forall j :: 0 <= j < Width(rows) ==> LeastUpTo(rows, acc[j], from[j], j, 1);
      assert acc == rows[0].cells;
    }
  }

  /**
   * Largest value per numeric column. The first row initialises each
   * column, later rows replace it when larger; no rows give no row.
   */
  method Max(rows: seq<Row>) returns (max: Option<Row>)
    requires Rectangular(rows)
    ensures max.None? <==> |rows| == 0
    ensures max.Some? ==> max.value.heading == Name("max") && |max.value.cells| == Width(rows)
    ensures max.Some? ==> forall j :: 0 <= j < Width(rows) ==> max.value.cells[j] == Greatest(Column(rows, j))
    ensures |rows| == 1 ==> max == Some(Row(Name("max"), rows[0].cells))
  {
    var acc: seq<int> := [];
    ghost var from: seq<nat> := [];
    var labelled := false;
    var key := 0;
    while key < |rows|
      invariant 0 <= key <= |rows|
      invariant labelled <==> key > 0
      invariant |acc| == |from| == (if key == 0 then 0 else Width(rows))
      invariant forall j :: 0 <= j < |acc| ==> GreatestUpTo(rows, acc[j], from[j], j, key)
    {
      var line := rows[key];
      labelled := true;
      ghost var next := key + 1;
      var col := 0;
      while col < |line.cells|
        invariant 0 <= col <= |line.cells| == Width(rows)
        invariant |acc| == |from| == (if key == 0 then col else Width(rows))
        invariant forall j :: 0 <= j < col ==> GreatestUpTo(rows, acc[j], from[j], j, next)
        invariant forall j :: col <= j < |acc| ==> GreatestUpTo(rows, acc[j], from[j], j, key)
      {
        if key == 0 {
          acc := acc + [line.cells[col]];
          from := from + [key];
        } else if line.cells[col] > acc[col] {
          acc := acc[col := line.cells[col]];
          from := from[col := key];
        }
        col := col + 1;
      }
      key := key + 1;
    }
    if !labelled {
      return None;
    }
    forall j | 0 <= j < Width(rows)
      ensures acc[j] == Greatest(Column(rows, j))
    {
      ColumnAt(rows, j);
      assert GreatestUpTo(rows, acc[j], from[j], j, |rows|);
      var c := Column(rows, j);
      assert acc[j] == c[from[j]];
      assert acc[j] <= Greatest(c);
      assert Greatest(c) <= acc[j];
    }
    max := Some(Row(Name("max"), acc));
    if |rows| == 1 {
      assert forall j :: 0 <= j < Width(rows) ==> GreatestUpTo(rows, acc[j], from[j], j, 1);
      assert acc == rows[0].cells;
    }
  }

  /** All rows carry the same numeric cells. */
  predicate Identical(rows: seq<Row>) {
    forall i :: 0 <= i < |rows| ==> rows[i].cells == rows[0].cells
  }

  /** Column means lie within their columns, and equal rows have themselves as means. */
  lemma MeansWithin(rows: seq<Row>, cells: seq<int>)
    requires |rows| > 0 && Rectangular(rows) && |cells| == Width(rows)
    requires forall j :: 0 <= j < Width(rows) ==> cells[j] == ColumnMean(rows, j)
    ensures forall j :: 0 <= j < Width(rows) ==> Least(Column(rows, j)) <= cells[j] <= Greatest(Column(rows, j))
    ensures Identical(rows) ==> cells == rows[0].cells
  {
    forall j | 0 <= j < Width(rows)
      ensures Least(Column(rows, j)) <= cells[j] <= Greatest(Column(rows, j))
    {
      MeanWithin(Column(rows, j));
    }
    if Identical(rows) {
      forall j | 0 <= j < Width(rows)
        ensures cells[j] == rows[0].cells[j]
      {
        MeanOfEqual(Column(rows, j), rows[0].cells[j]);
      }
    }
  }

  /** The sum of numeric column `j` over the first `n` rows. */
  function PrefixSum(rows: seq<Row>, j: nat, n: nat): (total: int)
    requires Rectangular(rows) && j < Width(rows) && n <= |rows|
  {
    if n == 0 then 0 else PrefixSum(rows, j, n - 1) + rows[n - 1].cells[j]
  }

  /** Summing a column prefix by rows is summing that prefix of the column. */
  lemma {:induction false} PrefixSumIsSum(rows: seq<Row>, j: nat, n: nat)
    requires Rectangular(rows) && j < Width(rows) && n <= |rows|
    ensures PrefixSum(rows, j, n) == Sum(Column(rows, j)[..n])
  {
    if n > 0 {
      PrefixSumIsSum(rows, j, n - 1);
      var c := Column(rows, j);
      assert c[..n][..n - 1] == c[..n - 1];
    }
  }

  /** The mean of numeric column `j`, rounded half away from zero. */
  function ColumnMean(rows: seq<Row>, j: nat): (mean: int)
    requires |rows| > 0 && Rectangular(rows) && j < Width(rows)
  {
    RoundHalfAway(Sum(Column(rows, j)), |rows|)
  }

  /**
   * Mean per numeric column: the first row initialises each column's sum,
   * later rows add to it, then each sum is divided by the row count and
   * rounded half away from zero; no rows give no row.
   */
  method Average(rows: seq<Row>) returns (avg: Option<Row>)
    requires Rectangular(rows)
    ensures avg.None? <==> |rows| == 0
    ensures avg.Some? ==> avg.value.heading == Name("avg") && |avg.value.cells| == Width(rows)
    ensures avg.Some? ==> forall j :: 0 <= j < Width(rows) ==> avg.value.cells[j] == ColumnMean(rows, j)
  {
    var acc: seq<int> := [];
    var labelled := false;
    var key := 0;
    while key < |rows|
      invariant 0 <= key <= |rows|
      invariant labelled <==> key > 0
      invariant |acc| == (if key == 0 then 0 else Width(rows))
      invariant forall j :: 0 <= j < |acc| ==> acc[j] == PrefixSum(rows, j, key)
    {
      var line := rows[key];
      labelled := true;
      ghost var next := key + 1;
      var col := 0;
      while col < |line.cells|
        invariant 0 <= col <= |line.cells| == Width(rows)
        invariant |acc| == (if key == 0 then col else Width(rows))
        invariant forall j :: 0 <= j < col ==> acc[j] == PrefixSum(rows, j, next)
        invariant forall j :: col <= j < |acc| ==> acc[j] == PrefixSum(rows, j, key)
      {
        if key == 0 {
          acc := acc + [line.cells[col]];
        } else {
          acc := acc[col := acc[col] + line.cells[col]];
        }
        col := col + 1;
      }
      key := key + 1;
    }
    if !labelled {
      return None;
    }
    var count := |rows|;
    var cells := acc;
    var k := 0;
    while k < |cells|
      invariant 0 <= k <= |cells| == |acc|
      invariant forall j :: 0 <= j < k ==> cells[j] == RoundHalfAway(acc[j], count)
      invariant forall j :: k <= j < |cells| ==> cells[j] == acc[j]
    {
      cells := cells[k := RoundHalfAway(cells[k], count)];
      k := k + 1;
    }
    forall j | 0 <= j < Width(rows)
      ensures cells[j] == ColumnMean(rows, j)
    {
      PrefixSumIsSum(rows, j, |rows|);
      assert Column(rows, j)[..|rows|] == Column(rows, j);
    }
    avg := Some(Row(Name("avg"), cells));
  }

  /** Column medians lie within their columns, and equal rows have themselves as medians. */
  lemma MediansWithin(rows: seq<Row>, cells: seq<int>)
    requires |rows| > 0 && Rectangular(rows) && |cells| == Width(rows)
    requires forall j :: 0 <= j < Width(rows) ==> cells[j] == ColumnMedian(rows, j)
    ensures forall j :: 0 <= j < Width(rows) ==> Least(Column(rows, j)) <= cells[j] <= Greatest(Column(rows, j))
    ensures Identical(rows) ==> cells == rows[0].cells
  {
    forall j | 0 <= j < Width(rows)
      ensures Least(Column(rows, j)) <= cells[j] <= Greatest(Column(rows, j))
    {
      MedianWithin(Column(rows, j));
    }
    if Identical(rows) {
      forall j | 0 <= j < Width(rows)
        ensures cells[j] == rows[0].cells[j]
      {
        MedianOfEqual(Column(rows, j), rows[0].cells[j]);
      }
    }
  }

  /** Collects numeric column `i`, top to bottom. */
  method Gather(rows: seq<Row>, i: nat) returns (column: seq<int>)
    requires Rectangular(rows) && i < Width(rows)
    ensures column == Column(rows, i)
  {
    column := [];
    var j := 0;
    while j < |rows|
      invariant 0 <= j <= |rows|
      invariant column == Column(rows, i)[..j]
    {
      assert Column(rows, i)[..j + 1] == Column(rows, i)[..j] + [rows[j].cells[i]];
      column := column + [rows[j].cells[i]];
      j := j + 1;
    }
  }

  /** The median of numeric column `j`. */
  function ColumnMedian(rows: seq<Row>, j: nat): (median: int)
    requires |rows| > 0 && Rectangular(rows) && j < Width(rows)
  {
    MedianOfSorted(SortAscending(Column(rows, j)))
  }

  /** Gathers numeric column `i`, sorts it ascending and takes its median. */
  method MedianOfColumn(rows: seq<Row>, i: nat) returns (value: int)
    requires |rows| > 0 && Rectangular(rows) && i < Width(rows)
    ensures value == ColumnMedian(rows, i)
  {
    var column := Gather(rows, i);
    var sorted := SortAscending(column);
    value := MedianOfSorted(sorted);
  }

  /**
   * Median per numeric column: each column is gathered top to bottom,
   * sorted ascending, and the middle element taken, or for an even count
   * the mean of the two middle elements rounded half away from zero. The
   * column count is read from the first row, so no rows is an error.
   */
  method Median(rows: seq<Row>) returns (med: Result<Row>)
    requires Rectangular(rows)
    ensures med.Err? <==> |rows| == 0
    ensures med.Ok? ==> med.value.heading == Name("med") && |med.value.cells| == Width(rows)
    ensures med.Ok? ==> forall j :: 0 <= j < Width(rows) ==> med.value.cells[j] == ColumnMedian(rows, j)
  {
    if |rows| == 0 {
      return Err("count(): Argument #1 ($value) must be of type Countable|array, null given");
    }
    var cells: seq<int> := [];
    var columns := |rows[0].cells|;
    var i := 0;
    while i < columns
      invariant 0 <= i <= columns == Width(rows)
      invariant |cells| == i
      invariant forall j :: 0 <= j < i ==> cells[j] == ColumnMedian(rows, j)
    {
      var value := MedianOfColumn(rows, i);
      cells := cells + [value];
      i := i + 1;
    }
    med := Ok(Row(Name("med"), cells));
  }
}
