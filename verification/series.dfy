/** Numeric helpers over a ticker's date-ordered price history: the pandas
    reductions `sum`, `mean`, `min`, `max`, `tail`, `pct_change` and the
    14-period relative strength index. Prices are reals. */
module Series {
  import opened Values

  function Sum(s: seq<real>): real
  {
    if |s| == 0 then 0.0 else Sum(s[..|s| - 1]) + s[|s| - 1]
  }

  function Mean(s: seq<real>): real
    requires |s| > 0
  {
    Sum(s) / |s| as real
  }

  /** `series.max()` of a non-empty series. */
  function MaxOf(s: seq<real>): real
    requires |s| > 0
  {
    if |s| == 1 then s[0]
    else
      var m := MaxOf(s[..|s| - 1]);
      if s[|s| - 1] > m then s[|s| - 1] else m
  }

  /** `series.min()` of a non-empty series. */
  function MinOf(s: seq<real>): real
    requires |s| > 0
  {
    if |s| == 1 then s[0]
    else
      var m := MinOf(s[..|s| - 1]);
      if s[|s| - 1] < m then s[|s| - 1] else m
  }

  /** The maximum bounds every element and is one of them. */
  lemma {:induction false} MaxOfBounds(s: seq<real>)
    requires |s| > 0
    ensures forall k :: 0 <= k < |s| ==> s[k] <= MaxOf(s)
    ensures exists k :: 0 <= k < |s| && s[k] == MaxOf(s)
  {
    if |s| > 1 {
      var init := s[..|s| - 1];
      MaxOfBounds(init);
      assert forall k :: 0 <= k < |init| ==> init[k] == s[k];
      var i :| 0 <= i < |init| && init[i] == MaxOf(init);
      if s[|s| - 1] > MaxOf(init) {
        assert s[|s| - 1] == MaxOf(s);
      } else {
        assert s[i] == MaxOf(s);
      }
    } else {
      assert s[0] == MaxOf(s);
    }
  }

  /** The minimum bounds every element and is one of them. */
  lemma {:induction false} MinOfBounds(s: seq<real>)
    requires |s| > 0
    ensures forall k :: 0 <= k < |s| ==> MinOf(s) <= s[k]
    ensures exists k :: 0 <= k < |s| && s[k] == MinOf(s)
  {
    if |s| > 1 {
      var init := s[..|s| - 1];
      MinOfBounds(init);
      assert forall k :: 0 <= k < |init| ==> init[k] == s[k];
      var i :| 0 <= i < |init| && init[i] == MinOf(init);
      if s[|s| - 1] < MinOf(init) {
        assert s[|s| - 1] == MinOf(s);
      } else {
        assert s[i] == MinOf(s);
      }
    } else {
      assert s[0] == MinOf(s);
    }
  }

  /** `series.tail(k)` for k no larger than the series. */
  function Tail(s: seq<real>, k: nat): (t: seq<real>)
    requires k <= |s|
    ensures |t| == k
  {
    s[|s| - k..]
  }

  /** `(cur / base - 1) * 100` in numpy floats: a zero base gives an infinite
      or undefined ratio, kept here as NaN. */
  function PctChange(cur: real, base: real): (v: Value)
  {
    if base == 0.0 then NaN else Num((cur / base - 1.0) * 100.0)
  }

  /** `prices.pct_change().dropna()`: one return per consecutive pair whose
      earlier price is non-zero. */
  function Returns(p: seq<real>): (r: seq<real>)
    ensures |r| <= if |p| == 0 then 0 else |p| - 1
  {
    if |p| < 2 then []
    else
      Returns(p[..|p| - 1])
      + (if p[|p| - 2] == 0.0 then [] else [p[|p| - 1] / p[|p| - 2] - 1.0])
  }

  /** `clip(lower=0.0)` element by element. */
  function Gains(s: seq<real>): (g: seq<real>)
    ensures |g| == |s|
    ensures forall k :: 0 <= k < |s| ==> g[k] == (if s[k] > 0.0 then s[k] else 0.0)
  {
    seq(|s|, k requires 0 <= k < |s| => if s[k] > 0.0 then s[k] else 0.0)
  }

  /** `-clip(upper=0.0)` element by element: the size of each fall. */
  function Losses(s: seq<real>): (l: seq<real>)
    ensures |l| == |s|
    ensures forall k :: 0 <= k < |s| ==> l[k] == (if s[k] < 0.0 then -s[k] else 0.0)
  {
    seq(|s|, k requires 0 <= k < |s| => if s[k] < 0.0 then -s[k] else 0.0)
  }

  /** Each return splits into its gain and its loss: both are non-negative,
      at most one of them is non-zero, and the gain less the loss is the
      return. */
  lemma GainsLossesSplit(s: seq<real>)
    ensures |Gains(s)| == |Losses(s)| == |s|
    ensures forall k :: 0 <= k < |s| ==>
              && Gains(s)[k] >= 0.0 && Losses(s)[k] >= 0.0
              && Gains(s)[k] - Losses(s)[k] == s[k]
              && (Gains(s)[k] == 0.0 || Losses(s)[k] == 0.0)
  {
  }

  /** The 14-period RSI over the last 14 returns. */
  function Rsi(rets: seq<real>): real
    requires |rets| >= 14
  {
    var last := Tail(rets, 14);
    var gains := Mean(Gains(last));
    var losses := Mean(Losses(last));
    SumZero(Gains(last));
    SumZero(Losses(last));
    if losses == 0.0 then 100.0
    else 100.0 - 100.0 / (1.0 + gains / losses)
  }

  // ---------------------------------------------------------------------
  // Lemmas

  /** A sum of terms at least `lo` and at most `hi` lies between |s|*lo and |s|*hi. */
  lemma {:induction false} SumBounds(s: seq<real>, lo: real, hi: real)
    requires forall k :: 0 <= k < |s| ==> lo <= s[k] <= hi
    ensures |s| as real * lo <= Sum(s) <= |s| as real * hi
  {
    if |s| > 0 {
      var init := s[..|s| - 1];
      assert forall k :: 0 <= k < |init| ==> init[k] == s[k];
      SumBounds(init, lo, hi);
    }
  }

  /** A sum of non-negative terms is zero exactly when every term is zero. */
  lemma {:induction false} SumZero(s: seq<real>)
    requires forall k :: 0 <= k < |s| ==> s[k] >= 0.0
    ensures Sum(s) >= 0.0
    ensures Sum(s) == 0.0 <==> forall k :: 0 <= k < |s| ==> s[k] == 0.0
  {
    if |s| > 0 {
      var init := s[..|s| - 1];
      assert forall k :: 0 <= k < |init| ==> init[k] == s[k];
      SumZero(init);
    }
  }

  /** A mean of terms within [lo, hi] is within [lo, hi]. */
  lemma MeanBounds(s: seq<real>, lo: real, hi: real)
    requires |s| > 0
    requires forall k :: 0 <= k < |s| ==> lo <= s[k] <= hi
    ensures lo <= Mean(s) <= hi
  {
    SumBounds(s, lo, hi);
    DivideBounds(Sum(s), |s| as real, lo, hi);
  }

  /** A mean lies between the smallest and the largest element. */
  lemma MeanWithinRange(s: seq<real>)
    requires |s| > 0
    ensures MinOf(s) <= Mean(s) <= MaxOf(s)
  {
    MinOfBounds(s);
    MaxOfBounds(s);
    MeanBounds(s, MinOf(s), MaxOf(s));
  }

  lemma DivideBounds(total: real, n: real, lo: real, hi: real)
    requires n > 0.0 && n * lo <= total <= n * hi
    ensures lo <= total / n <= hi
  {
    var q := total / n;
    assert total == n * q;
    assert n * lo <= n * q <= n * hi;
  }

  /** A mean of the trailing window also lies between the extremes of the
      whole series. */
  lemma TailMeanWithinSeries(s: seq<real>, k: nat)
    requires 0 < k <= |s|
    ensures MinOf(s) <= Mean(Tail(s, k)) <= MaxOf(s)
  {
    var t := Tail(s, k);
    MeanWithinRange(t);
    MinOfBounds(t);
    MaxOfBounds(t);
    MinOfBounds(s);
    MaxOfBounds(s);
    var i :| 0 <= i < |t| && t[i] == MinOf(t);
    var j :| 0 <= j < |t| && t[j] == MaxOf(t);
    assert t[i] == s[|s| - k + i] && t[j] == s[|s| - k + j];
  }

  /** The RSI lies in [0, 100] and is exactly 100 when none of the last 14
      returns is negative. */
  lemma RsiRange(rets: seq<real>)
    requires |rets| >= 14
    ensures 0.0 <= Rsi(rets) <= 100.0
    ensures Rsi(rets) == 100.0 <==> forall k :: |rets| - 14 <= k < |rets| ==> rets[k] >= 0.0
  {
    var last := Tail(rets, 14);
    var g, l := Gains(last), Losses(last);
    SumZero(g);
    SumZero(l);
    var losses := Mean(l);
    assert losses >= 0.0;
    assert losses == 0.0 <==> Sum(l) == 0.0;
    assert (forall k :: 0 <= k < |l| ==> l[k] == 0.0) <==>
           (forall k :: |rets| - 14 <= k < |rets| ==> rets[k] >= 0.0) by {
      forall k | |rets| - 14 <= k < |rets| ensures last[k - (|rets| - 14)] == rets[k] {
      }
    }
    if losses != 0.0 {
      var rs := Mean(g) / losses;
      assert rs >= 0.0;
      assert 0.0 < 100.0 / (1.0 + rs) <= 100.0;
    }
  }
}
