/** The per-column statistics pandas computes (`Series.mean`, `Series.median`,
    `Series.std`), over exact reals instead of floats. Every one of them skips
    missing values and is missing (NaN, here None) when too few values remain. */
module Statistics {
  import opened DataTable

  /** What `mean`, `median` and `std` return for one column. The standard
      deviation is kept as its square, the sample variance (divisor n - 1). */
  datatype ColumnStats = ColumnStats(mean: Option<real>, median: Option<real>, variance: Option<real>)

  /** The value pandas computes with for a non-missing cell; booleans count as 0 or 1. */
  function NumericValues(cells: seq<Cell>): (r: seq<real>)
    ensures |r| <= |cells|
  {
    if cells == [] then []
    else
      var rest := NumericValues(cells[1..]);
      match cells[0]
      case Num(x) => [x] + rest
      case Flag(b) => [if b then 1.0 else 0.0] + rest
      case _ => rest
  }

  /** A column yields no value exactly when it holds neither a number nor a boolean. */
  lemma {:induction false} NumericValuesEmpty(cells: seq<Cell>)
    ensures NumericValues(cells) == [] <==> forall k :: 0 <= k < |cells| ==> !cells[k].Num? && !cells[k].Flag?
  {
    if cells != [] {
      NumericValuesEmpty(cells[1..]);
      assert forall k :: 1 <= k < |cells| ==> cells[k] == cells[1..][k - 1];
    }
  }

  function Sum(s: seq<real>): real {
    if s == [] then 0.0 else s[0] + Sum(s[1..])
  }

  /** `Series.mean()` with missing values skipped. */
  function Mean(s: seq<real>): (r: Option<real>)
    ensures r.Some? <==> |s| > 0
    ensures r.Some? ==> r.value * |s| as real == Sum(s)
  {
    if |s| == 0 then None else Some(Sum(s) / |s| as real)
  }

  lemma {:induction false} SumBounds(s: seq<real>, lo: real, hi: real)
    requires forall i :: 0 <= i < |s| ==> lo <= s[i] <= hi
    ensures |s| as real * lo <= Sum(s) <= |s| as real * hi
  {
    if s != [] {
      SumBounds(s[1..], lo, hi);
      assert |s| as real * lo == lo + |s[1..]| as real * lo;
      assert |s| as real * hi == hi + |s[1..]| as real * hi;
    }
  }

  /** The mean lies within the range of the values it averages. */
  lemma MeanBounds(s: seq<real>, lo: real, hi: real)
    requires forall i :: 0 <= i < |s| ==> lo <= s[i] <= hi
    ensures Mean(s).Some? <==> |s| > 0
    ensures Mean(s).Some? ==> lo <= Mean(s).value <= hi
  {
    if |s| > 0 {
      SumBounds(s, lo, hi);
      var n := |s| as real;
      assert Sum(s) / n >= lo by { assert Sum(s) >= n * lo; }
      assert Sum(s) / n <= hi by { assert Sum(s) <= n * hi; }
    }
  }

  predicate SortedReals(s: seq<real>) {
    forall i, j :: 0 <= i < j < |s| ==> s[i] <= s[j]
  }

  /** A value no larger than the head of a sorted sequence may be put in front of it. */
  lemma SortedCons(x: real, s: seq<real>)
    requires SortedReals(s) && (s == [] || x <= s[0])
    ensures SortedReals([x] + s)
  {
    var r := [x] + s;
    forall i, j | 0 <= i < j < |r| ensures r[i] <= r[j] {
      if i == 0 { assert r[j] == s[j - 1] && s[0] <= s[j - 1]; }
    }
  }

  function Insert(x: real, s: seq<real>): (r: seq<real>)
    requires SortedReals(s)
    ensures SortedReals(r)
    ensures multiset(r) == multiset(s) + multiset{x}
    ensures |r| == |s| + 1 && (r[0] == x || (|s| > 0 && r[0] == s[0]))
  {
    if s == [] || x <= s[0] then
      SortedCons(x, s);
      [x] + s
    else
      assert s == [s[0]] + s[1..];
      var rest := Insert(x, s[1..]);
      SortedCons(s[0], rest);
      [s[0]] + rest
  }

  /** The values in ascending order, the order `median` works on. */
  function Sort(s: seq<real>): (r: seq<real>)
    ensures SortedReals(r)
    ensures multiset(r) == multiset(s)
  {
    if s == [] then []
    else
      assert s == [s[0]] + s[1..];
      Insert(s[0], Sort(s[1..]))
  }

  /** `Series.median()`: the middle value, or the average of the two middle values. */
  function Median(s: seq<real>): (r: Option<real>)
    ensures r.Some? <==> |s| > 0
    ensures r.Some? ==> exists i, j :: 0 <= i < |s| && 0 <= j < |s| && s[i] <= r.value <= s[j]
  {
    var sorted := Sort(s);
    var n := |sorted|;
    assert n == |s| by { assert |multiset(sorted)| == |multiset(s)|; }
    if n == 0 then None
    else
      var m := if n % 2 == 1 then sorted[n / 2] else (sorted[n / 2 - 1] + sorted[n / 2]) / 2.0;
      assert sorted[0] <= m <= sorted[n - 1];
      assert sorted[0] in multiset(s) && sorted[n - 1] in multiset(s) by {
        assert sorted[0] in multiset(sorted) && sorted[n - 1] in multiset(sorted);
      }
      var i :| 0 <= i < |s| && s[i] == sorted[0];
      var j :| 0 <= j < |s| && s[j] == sorted[n - 1];
      Some(m)
  }

  function SquaredDeviations(s: seq<real>, m: real): (r: real)
    ensures r >= 0.0
  {
    if s == [] then 0.0
    else
      var d := s[0] - m;
      assert d * d >= 0.0 by {
        if d < 0.0 { assert d * d == (-d) * (-d); }
      }
      d * d + SquaredDeviations(s[1..], m)
  }

  /** The square of `Series.std()`: divisor n - 1, missing below two values. */
  function SampleVariance(s: seq<real>): (r: Option<real>)
    ensures r.Some? <==> |s| >= 2
    ensures r.Some? ==> r.value >= 0.0
  {
    if |s| < 2 then None
    else
      var m := Sum(s) / |s| as real;
      Some(SquaredDeviations(s, m) / (|s| - 1) as real)
  }

  /** The `{'mean', 'median', 'std'}` record of one numeric column. */
  function Describe(cells: seq<Cell>): (r: ColumnStats)
    ensures r.mean.Some? <==> r.median.Some?
    ensures r.mean.Some? <==> exists k :: 0 <= k < |cells| && (cells[k].Num? || cells[k].Flag?)
    ensures r.variance.Some? ==> r.mean.Some?
  {
    var v := NumericValues(cells);
    NumericValuesEmpty(cells);
    ColumnStats(Mean(v), Median(v), SampleVariance(v))
  }
}
