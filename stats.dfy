/**
 The statistics of the anomaly check: the baseline is the mean of a device's
 history, the spread its sample standard deviation (denominator n - 1). A
 reading is anomalous when the spread is positive and the reading lies more
 than two spreads from the baseline. Watts are exact reals here; since both
 sides of `|w - mean| > 2 * stdev` are non-negative, squaring gives the same
 decision with the variance and no square root.
 */
module Stats {
  import opened Sequences

  /** The check runs only on a history of at least this many readings. */
  const MinHistory: nat := 10

  function Sum(xs: seq<real>): real
  {
    if |xs| == 0 then 0.0 else xs[0] + Sum(xs[1..])
  }

  /** `statistics.mean`. */
  function Mean(xs: seq<real>): (m: real)
    requires |xs| > 0
    ensures m * |xs| as real == Sum(xs)
  {
    Sum(xs) / |xs| as real
  }

  function Square(x: real): real
  {
    x * x
  }

  /** The sum of squared distances of `xs` from `m`. */
  function SumSqDev(xs: seq<real>, m: real): real
  {
    if |xs| == 0 then 0.0 else Square(xs[0] - m) + SumSqDev(xs[1..], m)
  }

  /** The square of `statistics.stdev`: the sample variance. */
  function Variance(xs: seq<real>): (v: real)
    requires |xs| >= 2
    ensures v >= 0.0
    ensures v * (|xs| - 1) as real == SumSqDev(xs, Mean(xs))
  {
    SumSqDevNonNegative(xs, Mean(xs));
    SumSqDev(xs, Mean(xs)) / (|xs| - 1) as real
  }

  function Abs(x: real): real
  {
    if x < 0.0 then -x else x
  }

  /**
   The statistical anomaly rule for a reading of `w` watts against the
   history of its device.
   */
  predicate IsAnomaly(w: real, history: seq<real>)
    ensures IsAnomaly(w, history) ==> |history| >= MinHistory && w != Mean(history)
  {
    |history| >= MinHistory &&
    Variance(history) > 0.0 &&
    Square(w - Mean(history)) > 4.0 * Variance(history)
  }

  /**
   The signed deviation of `w` from `baseline` in percent, zero when the
   baseline is not positive so that nothing is ever divided by zero.
   */
  function Deviation(w: real, baseline: real): (d: real)
    ensures baseline > 0.0 ==> d * baseline == (w - baseline) * 100.0
    ensures baseline <= 0.0 ==> d == 0.0
    ensures baseline > 0.0 ==> (d > 0.0 <==> w > baseline) && (d < 0.0 <==> w < baseline)
  {
    if baseline > 0.0 then ((w - baseline) / baseline) * 100.0 else 0.0
  }

  // ---- sums over concatenations, repetitions and permutations ----

  /** `n` copies of `c`. */
  function Repeat(c: real, n: nat): (r: seq<real>)
    ensures |r| == n && forall i :: 0 <= i < n ==> r[i] == c
  {
    if n == 0 then [] else [c] + Repeat(c, n - 1)
  }

  lemma {:induction false} SumAppend(a: seq<real>, b: seq<real>)
    ensures Sum(a + b) == Sum(a) + Sum(b)
  {
    if |a| > 0 {
      assert (a + b)[1..] == a[1..] + b;
      SumAppend(a[1..], b);
    } else {
      assert a + b == b;
    }
  }

  lemma {:induction false} SumSqDevAppend(a: seq<real>, b: seq<real>, m: real)
    ensures SumSqDev(a + b, m) == SumSqDev(a, m) + SumSqDev(b, m)
  {
    if |a| > 0 {
      assert (a + b)[1..] == a[1..] + b;
      SumSqDevAppend(a[1..], b, m);
    } else {
      assert a + b == b;
    }
  }

  /** A constant history sums to its length times the constant. */
  lemma {:induction false} SumConstant(xs: seq<real>, c: real)
    requires forall i :: 0 <= i < |xs| ==> xs[i] == c
    ensures Sum(xs) == |xs| as real * c
    ensures SumSqDev(xs, c) == 0.0
  {
    if |xs| > 0 {
      SumConstant(xs[1..], c);
    }
  }

  /** Every history has a non-negative spread. */
  lemma {:induction false} SumSqDevNonNegative(xs: seq<real>, m: real)
    ensures SumSqDev(xs, m) >= 0.0
  {
    if |xs| > 0 {
      SumSqDevNonNegative(xs[1..], m);
      SquareMonotone(Abs(xs[0] - m), 0.0);
      assert Square(Abs(xs[0] - m)) == Square(xs[0] - m);
    }
  }

  lemma {:induction false} SumRemove(xs: seq<real>, j: nat)
    requires j < |xs|
    ensures Sum(xs) == xs[j] + Sum(xs[..j] + xs[j + 1..])
  {
    var rest := xs[..j] + xs[j + 1..];
    if j > 0 {
      var tail := xs[1..];
      SumRemove(tail, j - 1);
      assert rest[0] == xs[0];
      assert rest[1..] == tail[..j - 1] + tail[j..];
    } else {
      assert rest == xs[1..];
    }
  }

  lemma {:induction false} SumSqDevRemove(xs: seq<real>, j: nat, m: real)
    requires j < |xs|
    ensures SumSqDev(xs, m) == Square(xs[j] - m) + SumSqDev(xs[..j] + xs[j + 1..], m)
  {
    var rest := xs[..j] + xs[j + 1..];
    if j > 0 {
      var tail := xs[1..];
      SumSqDevRemove(tail, j - 1, m);
      assert rest[0] == xs[0];
      assert rest[1..] == tail[..j - 1] + tail[j..];
    } else {
      assert rest == xs[1..];
    }
  }

  /** The sums do not depend on the order of the history. */
  lemma {:induction false} SumsPermutation(a: seq<real>, b: seq<real>, m: real)
    requires multiset(a) == multiset(b)
    ensures Sum(a) == Sum(b)
    ensures SumSqDev(a, m) == SumSqDev(b, m)
  {
    if |a| > 0 {
      var j := PermutationRest(a, b);
      SumsPermutation(a[1..], b[..j] + b[j + 1..], m);
      SumRemove(b, j);
      SumSqDevRemove(b, j, m);
    } else {
      assert |b| == |multiset(b)| == 0;
    }
  }

  /**
   The anomaly decision depends only on which watt values the history holds,
   not on the order in which the history lists them.
   */
  lemma AnomalyPermutation(w: real, a: seq<real>, b: seq<real>)
    requires multiset(a) == multiset(b)
    ensures IsAnomaly(w, a) == IsAnomaly(w, b)
  {
    assert |a| == |multiset(a)| == |b|;
    SumsPermutation(a, b, 0.0);
    if |a| >= 2 {
      SumsPermutation(a, b, Mean(a));
    }
  }

  // ---- properties of the anomaly rule ----

  /**
   The rule as the source writes it, `stdev > 0 and |w - mean| > 2 * stdev`,
   decides exactly as `IsAnomaly` for any non-negative `sd` whose square is
   the variance.
   */
  lemma AnomalyMatchesStdevRule(w: real, history: seq<real>, sd: real)
    requires |history| >= 2
    requires sd >= 0.0 && Square(sd) == Variance(history)
    ensures IsAnomaly(w, history) <==>
      |history| >= MinHistory && sd > 0.0 && Abs(w - Mean(history)) > 2.0 * sd
  {
    var e := w - Mean(history);
    assert Square(Abs(e)) == Square(e);
    assert Square(2.0 * sd) == 4.0 * Square(sd);
    SquareMonotone(Abs(e), 2.0 * sd);
    SquareMonotone(sd, 0.0);
  }

  /** For non-negative reals, comparing the squares compares the values. */
  lemma SquareMonotone(x: real, y: real)
    requires x >= 0.0 && y >= 0.0
    ensures x > y <==> Square(x) > Square(y)
  {
    if x > y {
      SquareGrows(y, x);
    } else if x < y {
      SquareGrows(x, y);
    }
  }

  lemma SquareGrows(x: real, y: real)
    requires 0.0 <= x < y
    ensures Square(x) < Square(y)
  {
    var d := y - x;
    assert Square(y) == Square(x) + d * (x + y);
    assert d * (x + y) > 0.0;
  }

  /** A history of identical readings has no spread, so it never raises an alert. */
  lemma ConstantHistoryNoAnomaly(w: real, history: seq<real>, c: real)
    requires forall i :: 0 <= i < |history| ==> history[i] == c
    ensures !IsAnomaly(w, history)
  {
    SumConstant(history, c);
    if |history| >= 2 {
      assert Mean(history) == c;
    }
  }

  /** Fewer than ten readings never raise an alert, whatever the reading. */
  lemma ShortHistoryNoAnomaly(w: real, history: seq<real>)
    requires |history| < MinHistory
    ensures !IsAnomaly(w, history)
  {
  }

  /**
   Fifteen readings of 100 W followed by one of 9999 W: the spike is part of
   its own history, so the baseline is 11499/16 W, the variance 6124387.5625,
   and the spike is an anomaly some 1291 % above its baseline.
   */
  lemma SpikeAfterFlatHistory()
    ensures var h := Repeat(100.0, 15) + [9999.0];
      && Mean(h) == 718.6875
      && Variance(h) == 6124387.5625
      && IsAnomaly(9999.0, h)
      && 1291.28 < Deviation(9999.0, Mean(h)) < 1291.29
  {
    var flat := Repeat(100.0, 15);
    var h := flat + [9999.0];
    SumAppend(flat, [9999.0]);
    SumConstant(flat, 100.0);
    assert Sum(h) == 11499.0;
    var m := Mean(h);
    assert m == 718.6875;
    SumSqDevAppend(flat, [9999.0], m);
    SumSqDevRepeat(100.0, 15, m);
    assert SumSqDev(h, m) == 91865813.4375;
    assert Deviation(9999.0, m) * 718.6875 == 928031.25;
  }

  lemma {:induction false} SumSqDevRepeat(c: real, n: nat, m: real)
    ensures SumSqDev(Repeat(c, n), m) == n as real * (c - m) * (c - m)
  {
    if n > 0 {
      SumSqDevRepeat(c, n - 1, m);
    }
  }

  /** Readings between `lo` and `hi` have a mean between `lo` and `hi`. */
  lemma MeanBetween(xs: seq<real>, lo: real, hi: real)
    requires |xs| > 0
    requires forall i :: 0 <= i < |xs| ==> lo <= xs[i] <= hi
    ensures lo <= Mean(xs) <= hi
  {
    SumBetween(xs, lo, hi);
    var n := |xs| as real;
    assert lo * n <= Sum(xs) <= hi * n;
  }

  lemma {:induction false} SumBetween(xs: seq<real>, lo: real, hi: real)
    requires forall i :: 0 <= i < |xs| ==> lo <= xs[i] <= hi
    ensures lo * |xs| as real <= Sum(xs) <= hi * |xs| as real
  {
    if |xs| > 0 {
      SumBetween(xs[1..], lo, hi);
    }
  }

  /** `MAX(watts)` over a non-empty group. */
  function Max(xs: seq<real>): (m: real)
    requires |xs| > 0
    ensures m in xs
    ensures forall i :: 0 <= i < |xs| ==> xs[i] <= m
  {
    if |xs| == 1 then xs[0]
    else
      var rest := Max(xs[1..]);
      assert forall i :: 1 <= i < |xs| ==> xs[i] == xs[1..][i - 1];
      if xs[0] < rest then rest else xs[0]
  }

  /** `MIN(watts)` over a non-empty group. */
  function Min(xs: seq<real>): (m: real)
    requires |xs| > 0
    ensures m in xs
    ensures forall i :: 0 <= i < |xs| ==> m <= xs[i]
  {
    if |xs| == 1 then xs[0]
    else
      var rest := Min(xs[1..]);
      assert forall i :: 1 <= i < |xs| ==> xs[i] == xs[1..][i - 1];
      if rest < xs[0] then rest else xs[0]
  }

  /** `MIN(watts) <= AVG(watts) <= MAX(watts)` over any non-empty group. */
  lemma MinMeanMax(xs: seq<real>)
    requires |xs| > 0
    ensures Min(xs) <= Mean(xs) <= Max(xs)
  {
    MeanBetween(xs, Min(xs), Max(xs));
  }
}
