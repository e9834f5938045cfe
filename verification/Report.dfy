// src/backtest/report.py: the running-peak drawdown of `_compute_metrics`.
module Report {
  import opened Prelude

  /** `equity.cummax()` at position i. */
  function RunningPeak(equity: seq<real>, i: nat): (peak: real)
    requires i < |equity|
    ensures forall k :: 0 <= k <= i ==> equity[k] <= peak
    ensures exists k :: 0 <= k <= i && equity[k] == peak
  {
    if i == 0 then equity[0] else Max(RunningPeak(equity, i - 1), equity[i])
  }

  /** How far a value lies below (negative) or above a base, as a share of the base. */
  function RelativeTo(value: real, base: real): real
    requires base > 0.0
  {
    (value - base) / base
  }

  /** `(equity - running_peak) / running_peak` at position i. */
  function DrawdownAt(equity: seq<real>, i: nat): real
    requires i < |equity| && equity[0] > 0.0
  {
    var peak := RunningPeak(equity, i);
    assert peak >= equity[0];
    RelativeTo(equity[i], peak)
  }

  /** The minimum of the drawdown series over its first `n` positions. */
  function WorstDrawdown(equity: seq<real>, n: nat): (worst: real)
    requires 0 < n <= |equity| && equity[0] > 0.0
    ensures forall i :: 0 <= i < n ==> worst <= DrawdownAt(equity, i)
    ensures exists i :: 0 <= i < n && worst == DrawdownAt(equity, i)
  {
    if n == 1 then DrawdownAt(equity, 0) else Min(WorstDrawdown(equity, n - 1), DrawdownAt(equity, n - 1))
  }

  /** `max_drawdown`: 0 for a run without trades or without a curve. */
  function MaxDrawdown(equity: seq<real>, totalTrades: nat): real
    requires equity != [] ==> equity[0] > 0.0
  {
    if totalTrades == 0 || equity == [] then 0.0 else WorstDrawdown(equity, |equity|)
  }

  /** The relative change of buying at i and looking at j. */
  function Change(equity: seq<real>, i: nat, j: nat): real
    requires i <= j < |equity| && equity[i] > 0.0
  {
    RelativeTo(equity[j], equity[i])
  }

  /**
   * Measured from a larger base a value of any sign looks worse if it is not negative, and better if it
   * is negative.
   */
  lemma BaseMatters(e: real, low: real, high: real)
    requires 0.0 < low <= high
    ensures e >= 0.0 ==> RelativeTo(e, high) <= RelativeTo(e, low)
    ensures e < 0.0 ==> RelativeTo(e, low) <= RelativeTo(e, high)
    ensures e < 0.0 && low < high ==> RelativeTo(e, low) < RelativeTo(e, high)
  {
    var x, y := RelativeTo(e, low), RelativeTo(e, high);
    assert x * low == e - low && y * high == e - high;
    RelativeOf(e, low);
    RelativeOf(e, high);
    if e >= 0.0 {
      ProductNonNegative(e, high - low);
      assert e * (high - low) == e * high - e * low;
      QuotientOrder(e, high, e, low);
    } else {
      ProductNonNegative(-e, high - low);
      assert -e * (high - low) == e * low - e * high;
      QuotientOrder(e, low, e, high);
      if low < high && x >= y {
        SameQuotient(e, low, high);
        assert false;
      }
    }
  }

  lemma RelativeOf(e: real, base: real)
    requires base > 0.0
    ensures RelativeTo(e, base) == e / base - 1.0
  {
    var q, x := e / base, (e - base) / base;
    assert base * q == e && base * x == e - base;
    assert base * (q - 1.0) == base * q - base;
    CancelFactor(base, x, q - 1.0);
    CancelFactor(base, q - 1.0, x);
  }

  lemma SameQuotient(e: real, low: real, high: real)
    requires 0.0 < low <= high && e != 0.0 && e / low == e / high
    ensures low == high
  {
    var q := e / low;
    assert q * low == e && q * high == e;
    assert q * (high - low) == 0.0;
    assert q != 0.0;
  }

  /** No earlier base makes the loss at j look worse than the running peak does. */
  predicate PeakIsWorstBase(equity: seq<real>, j: nat)
    requires j < |equity| && equity[0] > 0.0
  {
    forall i :: 0 <= i <= j && equity[i] > 0.0 ==> DrawdownAt(equity, j) <= Change(equity, i, j)
  }

  /** Every positive base up to j is the running peak itself. */
  predicate SingleBase(equity: seq<real>, j: nat)
    requires j < |equity|
  {
    forall i :: 0 <= i <= j && equity[i] > 0.0 ==> equity[i] == RunningPeak(equity, j)
  }

  /** The running peak is the worst base exactly when equity is not negative there or there is only one base. */
  lemma PeakIsWorstBaseIff(equity: seq<real>, j: nat)
    requires j < |equity| && equity[0] > 0.0
    ensures PeakIsWorstBase(equity, j) <==> equity[j] >= 0.0 || SingleBase(equity, j)
  {
    var peak := RunningPeak(equity, j);
    assert peak >= equity[0];
    hide RelativeTo;
    forall i | 0 <= i <= j && equity[i] > 0.0
      ensures equity[j] >= 0.0 || equity[i] == peak ==> DrawdownAt(equity, j) <= Change(equity, i, j)
      ensures equity[j] < 0.0 && equity[i] < peak ==> Change(equity, i, j) < DrawdownAt(equity, j)
    {
      BaseMatters(equity[j], equity[i], peak);
    }
  }

  /** Some purchase and a later look attain the worst drawdown. */
  lemma WorstIsAttained(equity: seq<real>) returns (i: nat, j: nat)
    requires equity != [] && equity[0] > 0.0
    ensures i <= j < |equity| && equity[i] > 0.0 && WorstDrawdown(equity, |equity|) == Change(equity, i, j)
  {
    hide RelativeTo;
    j :| 0 <= j < |equity| && WorstDrawdown(equity, |equity|) == DrawdownAt(equity, j);
    i :| 0 <= i <= j && equity[i] == RunningPeak(equity, j);
    assert RunningPeak(equity, j) >= equity[0];
  }

  /** `worst` is the smallest relative change over all buy times i and look times j. */
  predicate IsWorstChange(worst: real, equity: seq<real>) {
    && (forall i, j :: 0 <= i <= j < |equity| && equity[i] > 0.0 ==> worst <= Change(equity, i, j))
    && (exists i, j :: 0 <= i <= j < |equity| && equity[i] > 0.0 && worst == Change(equity, i, j))
  }

  /** The smallest positive equity up to j: the base from which a negative value looks worst. */
  function SmallestBase(equity: seq<real>, j: nat): (base: real)
    requires j < |equity| && equity[0] > 0.0
    ensures base > 0.0 && forall i :: 0 <= i <= j && equity[i] > 0.0 ==> base <= equity[i]
    ensures exists i :: 0 <= i <= j && equity[i] == base
  {
    if j == 0 then equity[0]
    else
      var before := SmallestBase(equity, j - 1);
      if 0.0 < equity[j] < before then equity[j] else before
  }

  /**
   * For a whole curve: the worst drawdown is the worst change exactly when no negative
   * value, measured from the smallest base before it, lies below it.
   */
  lemma WorstDrawdownIff(equity: seq<real>)
    requires equity != [] && equity[0] > 0.0
    ensures var worst := WorstDrawdown(equity, |equity|);
      IsWorstChange(worst, equity) <==>
        forall j :: 0 <= j < |equity| && equity[j] < 0.0 ==> worst <= RelativeTo(equity[j], SmallestBase(equity, j))
  {
    hide RelativeTo, WorstDrawdown, RunningPeak, SmallestBase, SingleBase, DrawdownAt;
    var worst := WorstDrawdown(equity, |equity|);
    var a, b := WorstIsAttained(equity);
    forall j | 0 <= j < |equity|
      ensures equity[j] >= 0.0 ==> forall i :: 0 <= i <= j && equity[i] > 0.0 ==> worst <= Change(equity, i, j)
      ensures equity[j] < 0.0 ==>
        (worst <= RelativeTo(equity[j], SmallestBase(equity, j)) <==>
           forall i :: 0 <= i <= j && equity[i] > 0.0 ==> worst <= Change(equity, i, j))
    {
      PeakIsWorstBaseIff(equity, j);
      assert worst <= DrawdownAt(equity, j);
      NegativeFromSmallest(equity, j, worst);
    }
  }

  lemma NegativeFromSmallest(equity: seq<real>, j: nat, worst: real)
    requires j < |equity| && equity[0] > 0.0
    ensures equity[j] < 0.0 ==>
      (worst <= RelativeTo(equity[j], SmallestBase(equity, j)) <==>
         forall i :: 0 <= i <= j && equity[i] > 0.0 ==> worst <= Change(equity, i, j))
  {
    var base := SmallestBase(equity, j);
    var k :| 0 <= k <= j && equity[k] == base;
    assert RelativeTo(equity[j], base) == Change(equity, k, j);
    hide RelativeTo, SmallestBase;
    forall i | 0 <= i <= j && equity[i] > 0.0
      ensures equity[j] < 0.0 ==> RelativeTo(equity[j], base) <= Change(equity, i, j)
    {
      BaseMatters(equity[j], base, equity[i]);
    }
  }

  /** In particular it is on every curve that never goes negative. */
  lemma DrawdownIsWorstChange(equity: seq<real>)
    requires equity != [] && equity[0] > 0.0
    requires forall i :: 0 <= i < |equity| ==> equity[i] >= 0.0
    ensures IsWorstChange(WorstDrawdown(equity, |equity|), equity)
  {
    WorstDrawdownIff(equity);
  }

  /**
   * Of any run: 0 for an empty curve or no trades, the worst drawdown otherwise; the first agrees with
   * the second on a flat curve.
   */
  lemma MaxDrawdownIsWorstChange(equity: seq<real>, totalTrades: nat)
    requires equity != [] ==> equity[0] > 0.0
    ensures MaxDrawdown(equity, totalTrades) <= 0.0
    ensures equity != [] && (forall i :: 0 <= i < |equity| ==> equity[i] >= 0.0)
            && (totalTrades == 0 ==> forall i :: 0 <= i < |equity| ==> equity[i] == equity[0]) ==>
      IsWorstChange(MaxDrawdown(equity, totalTrades), equity)
  {
    if equity != [] {
      assert RunningPeak(equity, 0) == equity[0] && DrawdownAt(equity, 0) == 0.0;
      assert WorstDrawdown(equity, |equity|) <= DrawdownAt(equity, 0);
      hide RelativeTo, DrawdownAt, WorstDrawdown;
      if forall i :: 0 <= i < |equity| ==> equity[i] >= 0.0 {
        DrawdownIsWorstChange(equity);
      }
      if forall i :: 0 <= i < |equity| ==> equity[i] == equity[0] {
        FlatCurve(equity);
      }
    }
  }

  /** A curve that never moves has only zero changes. */
  lemma FlatCurve(equity: seq<real>)
    requires equity != [] && equity[0] > 0.0 && forall i :: 0 <= i < |equity| ==> equity[i] == equity[0]
    ensures WorstDrawdown(equity, |equity|) == 0.0
  {
    var i, j := WorstIsAttained(equity);
    assert Change(equity, i, j) == 0.0;
  }

  /** An instance outside the condition: a small base makes the same loss look worse than the peak does. */
  lemma NegativeEquityDiffers()
    ensures var e := [1.0, 2.0, -1.0];
      && WorstDrawdown(e, 3) == -1.5 && Change(e, 0, 2) == -2.0
      && !PeakIsWorstBase(e, 2) && !IsWorstChange(WorstDrawdown(e, 3), e)
  {
    var e := [1.0, 2.0, -1.0];
    assert RunningPeak(e, 0) == 1.0 && RunningPeak(e, 1) == 2.0 && RunningPeak(e, 2) == 2.0;
    assert DrawdownAt(e, 0) == 0.0 && DrawdownAt(e, 1) == 0.0 && DrawdownAt(e, 2) == -1.5;
    assert WorstDrawdown(e, 1) == 0.0 && WorstDrawdown(e, 2) == 0.0;
    PeakIsWorstBaseIff(e, 2);
    assert e[0] != RunningPeak(e, 2);
    assert Change(e, 0, 2) == -2.0;
  }
}
