/** Summary metrics of one simulation run: maximum drawdowns of the two
    parties' cumulative P&L, total profit and its split, and how many of the
    opened streams closed and how. */
module Metrics {
  import opened SeqUtil
  import opened Units
  import opened SimTable
  import opened ProfitLoss
  import opened Events
  import opened Binning

  // ---------------------------------------------------------------------------
  // Maximum drawdown
  // ---------------------------------------------------------------------------

  /** `np.maximum.accumulate(values)[i]`: the largest of the first `i + 1` values. */
  function PrefixMax(v: seq<real>, i: nat): (r: real)
    requires i < |v|
    ensures forall j :: 0 <= j <= i ==> v[j] <= r
    decreases i
  {
    if i == 0 then v[0] else Max(PrefixMax(v, i - 1), v[i])
  }

  /** The running maximum is one of the values it ranges over. */
  lemma {:induction false} PrefixMaxAttained(v: seq<real>, i: nat)
    requires i < |v|
    ensures exists j :: 0 <= j <= i && v[j] == PrefixMax(v, i)
    decreases i
  {
    if i == 0 {
      assert v[0] == PrefixMax(v, 0);
    } else if v[i] >= PrefixMax(v, i - 1) {
      assert v[i] == PrefixMax(v, i);
    } else {
      PrefixMaxAttained(v, i - 1);
      var j :| 0 <= j <= i - 1 && v[j] == PrefixMax(v, i - 1);
      assert v[j] == PrefixMax(v, i);
    }
  }

  /** `maxes - values`: how far each value sits below the running maximum. */
  function Drawdowns(v: seq<real>): (d: seq<real>)
    ensures |d| == |v|
    ensures forall i :: 0 <= i < |v| ==> 0.0 <= d[i]
  {
    seq(|v|, i requires 0 <= i < |v| => PrefixMax(v, i) - v[i])
  }

  /** The minute the largest drawdown is reached (the first, on a tie). */
  function DrawdownEnd(v: seq<real>): (e: nat)
    requires |v| > 0
    ensures e < |v|
    ensures forall i :: 0 <= i < |v| ==> Drawdowns(v)[i] <= Drawdowns(v)[e]
    ensures forall i :: 0 <= i < e ==> Drawdowns(v)[i] < Drawdowns(v)[e]
  {
    FirstArgmax(Drawdowns(v))
  }

  /** The peak that drawdown is measured from: the first maximum of the
      values strictly before its end, or 0 when it ends at the start. */
  function DrawdownStart(v: seq<real>): (s: nat)
    requires |v| > 0
    ensures s <= DrawdownEnd(v)
    ensures 0 < DrawdownEnd(v) ==> s < DrawdownEnd(v)
    ensures forall i :: 0 <= i < DrawdownEnd(v) ==> v[i] <= v[s]
    ensures forall i :: 0 <= i < s ==> v[i] < v[s]
  {
    var e := DrawdownEnd(v);
    if e == 0 then 0 else FirstArgmax(v[..e])
  }

  /** When a value sits below the running maximum, that maximum was reached
      strictly earlier, at the first maximum of the earlier values. */
  lemma EarlierPeak(v: seq<real>, e: nat)
    requires 0 < e < |v| && v[e] < PrefixMax(v, e)
    ensures v[FirstArgmax(v[..e])] == PrefixMax(v, e)
  {
    var w := v[..e];
    var s := FirstArgmax(w);
    PrefixMaxAttained(v, e);
    var j :| 0 <= j <= e && v[j] == PrefixMax(v, e);
    assert j < e;
    assert w[j] <= w[s];
    assert w[j] == v[j] && w[s] == v[s];
  }

  /** When the drawdown ends after the start, the start index holds the
      running maximum at the end, strictly before it. */
  lemma DrawdownStartIsPeak(v: seq<real>)
    requires |v| > 0 && DrawdownEnd(v) > 0
    ensures DrawdownStart(v) < DrawdownEnd(v)
    ensures v[DrawdownStart(v)] == PrefixMax(v, DrawdownEnd(v))
    ensures v[DrawdownEnd(v)] < PrefixMax(v, DrawdownEnd(v))
  {
    var d, e := Drawdowns(v), DrawdownEnd(v);
    assert d[0] == 0.0;
    assert 0.0 < d[e];
    EarlierPeak(v, e);
  }

  /** The maximum drawdown: peak value less the value at the drawdown's end. */
  function CalculateMaxDrawdown(values: seq<real>): (r: real)
    requires |values| > 0
    ensures 0.0 <= r
  {
    var s, e := DrawdownStart(values), DrawdownEnd(values);
    if e == 0 then values[s] - values[e]
    else DrawdownStartIsPeak(values); values[s] - values[e]
  }

  /** The result is the largest entry of `Drawdowns`, positive unless the
      largest drawdown is at the first minute. */
  lemma DrawdownIndices(v: seq<real>)
    requires |v| > 0
    ensures CalculateMaxDrawdown(v) == Drawdowns(v)[DrawdownEnd(v)]
    ensures DrawdownEnd(v) > 0 ==> 0.0 < CalculateMaxDrawdown(v)
    ensures DrawdownEnd(v) == 0 ==> CalculateMaxDrawdown(v) == 0.0
    ensures forall i :: 0 <= i < |v| ==> Drawdowns(v)[i] <= CalculateMaxDrawdown(v)
  {
    if DrawdownEnd(v) > 0 {
      DrawdownStartIsPeak(v);
    }
  }

  /** The maximum drawdown is the largest fall from a value to any later
      value, and some such fall attains it. */
  lemma MaxDrawdownIsLargestFall(v: seq<real>)
    requires |v| > 0
    ensures 0.0 <= CalculateMaxDrawdown(v)
    ensures forall i, j :: 0 <= i <= j < |v| ==> v[i] - v[j] <= CalculateMaxDrawdown(v)
    ensures exists i, j :: 0 <= i <= j < |v| && v[i] - v[j] == CalculateMaxDrawdown(v)
  {
    DrawdownIndices(v);
    var d := Drawdowns(v);
    forall i, j | 0 <= i <= j < |v| ensures v[i] - v[j] <= CalculateMaxDrawdown(v) {
      assert v[i] <= PrefixMax(v, j);
      assert d[j] == PrefixMax(v, j) - v[j];
    }
    var s, e := DrawdownStart(v), DrawdownEnd(v);
    assert v[s] - v[e] == CalculateMaxDrawdown(v);
  }

  /** A series that never falls has no drawdown. */
  lemma NonDecreasingHasNoDrawdown(v: seq<real>)
    requires |v| > 0
    requires forall i, j :: 0 <= i <= j < |v| ==> v[i] <= v[j]
    ensures CalculateMaxDrawdown(v) == 0.0
  {
    MaxDrawdownIsLargestFall(v);
    var i, j :| 0 <= i <= j < |v| && v[i] - v[j] == CalculateMaxDrawdown(v);
  }

  /** A worked series: the deepest fall runs from 10 down to -5. */
  lemma MaxDrawdownExample()
    ensures var v := [0.0, 10.0, 2.0, 8.0, -5.0, 20.0];
            DrawdownEnd(v) == 4 && DrawdownStart(v) == 1 && CalculateMaxDrawdown(v) == 15.0
  {
    var v := [0.0, 10.0, 2.0, 8.0, -5.0, 20.0];
    assert PrefixMax(v, 0) == 0.0;
    assert PrefixMax(v, 1) == 10.0;
    assert PrefixMax(v, 2) == 10.0;
    assert PrefixMax(v, 3) == 10.0;
    assert PrefixMax(v, 4) == 10.0;
    assert PrefixMax(v, 5) == 20.0;
    var d := Drawdowns(v);
    assert d == [0.0, 0.0, 8.0, 2.0, 15.0, 0.0];
    FirstArgmaxUnique(d, 4);
    assert v[..4] == [0.0, 10.0, 2.0, 8.0];
    FirstArgmaxUnique(v[..4], 1);
  }

  // ---------------------------------------------------------------------------
  // Run metrics
  // ---------------------------------------------------------------------------

  /** numpy float division: `None` where numpy yields inf or nan. */
  function Ratio(a: real, b: real): (r: Option<real>)
    ensures r.None? <==> b == 0.0
    ensures r.Some? ==> r.value * b == a
  {
    if b == 0.0 then None else Some(a / b)
  }

  /** A factor that scales a positive whole down to a part of it lies in [0, 1]. */
  lemma FractionBounds(q: real, a: real, b: real)
    requires 0.0 <= a <= b && 0.0 < b && q * b == a
    ensures 0.0 <= q <= 1.0
  {
    assert (1.0 - q) * b == b - a;
  }

  /** A part of a nonnegative whole, as a fraction of it. */
  lemma RatioOfPart(a: real, b: real)
    requires 0.0 <= a <= b
    ensures Ratio(a, b).Some? ==> 0.0 <= Ratio(a, b).value <= 1.0
  {
    if b != 0.0 {
      FractionBounds(Ratio(a, b).value, a, b);
    }
  }

  /** The liquidator's share of the two drawdowns together. */
  function DrawdownShare(liquidatorMd: real, gasTankMd: real): (r: Option<real>)
    requires 0.0 <= liquidatorMd && 0.0 <= gasTankMd
    ensures r.None? <==> liquidatorMd == 0.0 && gasTankMd == 0.0
    ensures r.Some? ==> 0.0 <= r.value <= 1.0 && r.value * (liquidatorMd + gasTankMd) == liquidatorMd
  {
    RatioOfPart(liquidatorMd, liquidatorMd + gasTankMd);
    Ratio(liquidatorMd, liquidatorMd + gasTankMd)
  }

  /** The self-closed share of the streams that closed. */
  function SelfClosedShare(selfClosed: nat, liquidated: nat): (r: Option<real>)
    ensures r.None? <==> selfClosed + liquidated == 0
    ensures r.Some? ==> 0.0 <= r.value <= 1.0 && r.value * (selfClosed + liquidated) as real == selfClosed as real
  {
    RatioOfPart(selfClosed as real, (selfClosed + liquidated) as real);
    Ratio(selfClosed as real, (selfClosed + liquidated) as real)
  }

  /** `column * scalar`, entry by entry. */
  function Scaled(s: seq<real>, c: real): (r: seq<real>)
    ensures |r| == |s|
    ensures forall i :: 0 <= i < |s| ==> r[i] == s[i] * c
  {
    seq(|s|, i requires 0 <= i < |s| => s[i] * c)
  }

  /** `np.mean`. */
  function Mean(s: seq<real>): real
    requires |s| > 0
  {
    Sum(s) / |s| as real
  }

  datatype RunMetrics = RunMetrics(
    liquidatorMd: real,
    gasTankMd: real,
    liquidatorMdPercent: Option<real>,
    liquidatorPercentOfProfit: Option<real>,
    totalProfit: real,
    nOpened: nat,
    percentSelfClosed: Option<real>,
    percentClosed: Option<real>,
    totalMarginTaken: real)

  /** Margin captured through liquidations in each minute: count times the
      binned stream size (a monthly flow rate, not scaled by margin hours). */
  function MarginTakenColumn(rows: Table): (c: seq<real>)
    requires rows.WellFormed()
    ensures |c| == rows.Length()
  {
    seq(rows.Length(), i requires 0 <= i < rows.Length() && rows.WellFormed() =>
      rows.nLiquidated[i] as real * rows.avgLiquidationSize[i])
  }

  /** `gas_tank_eth_pl.cumsum() * mean(price)`: the tank's running P&L in
      the quote currency, at the run's mean price. */
  function GasTankUsdCum(r: PlResult): (c: seq<real>)
    requires r.WellFormed() && r.rows.Length() > 0
    ensures |c| == r.rows.Length()
  {
    Scaled(CumSum(r.gasTankEthPl), Mean(r.rows.price))
  }

  /** The liquidator's last running total: its profit over the whole run. */
  function LiquidatorProfit(r: PlResult): (total: real)
    requires r.WellFormed() && r.rows.Length() > 0
    ensures total == Sum(r.liquidatorPl)
  {
    CumSumLast(r.liquidatorPl);
    CumSum(r.liquidatorPl)[r.rows.Length() - 1]
  }

  /** The last running totals of both parties: the whole run's profit. */
  function TotalProfit(r: PlResult): (total: real)
    requires r.WellFormed() && r.rows.Length() > 0
    ensures total == Sum(r.liquidatorPl) + Sum(r.gasTankEthPl) * Mean(r.rows.price)
  {
    CumSumLast(r.gasTankEthPl);
    LiquidatorProfit(r) + GasTankUsdCum(r)[r.rows.Length() - 1]
  }

  /** The metrics of one run given its two maximum drawdowns: profit and
      its split, the drawdown split, and the stream counts and shares. */
  function MetricsFrom(r: PlResult, liquidatorMd: real, gasTankMd: real): (m: RunMetrics)
    requires r.WellFormed() && r.rows.Length() > 0
    requires 0.0 <= liquidatorMd && 0.0 <= gasTankMd
    ensures m.liquidatorMd == liquidatorMd && m.gasTankMd == gasTankMd
    ensures m.totalProfit == Sum(r.liquidatorPl) + Sum(r.gasTankEthPl) * Mean(r.rows.price)
    ensures m.liquidatorMdPercent.None? <==> liquidatorMd == 0.0 && gasTankMd == 0.0
    ensures m.liquidatorMdPercent.Some? ==>
              0.0 <= m.liquidatorMdPercent.value <= 1.0 &&
              m.liquidatorMdPercent.value * (liquidatorMd + gasTankMd) == liquidatorMd
    ensures m.liquidatorPercentOfProfit.None? <==> m.totalProfit == 0.0
    ensures m.liquidatorPercentOfProfit.Some? ==>
              m.liquidatorPercentOfProfit.value * m.totalProfit == Sum(r.liquidatorPl)
    ensures m.nOpened == SumNat(r.rows.nOpened)
    ensures m.percentSelfClosed.None? <==> SumNat(r.rows.nSelfClosed) + SumNat(r.rows.nLiquidated) == 0
    ensures m.percentSelfClosed.Some? ==>
              0.0 <= m.percentSelfClosed.value <= 1.0 &&
              m.percentSelfClosed.value * (SumNat(r.rows.nSelfClosed) + SumNat(r.rows.nLiquidated)) as real ==
                SumNat(r.rows.nSelfClosed) as real
    ensures m.percentClosed.None? <==> m.nOpened == 0
    ensures m.percentClosed.Some? ==>
              m.percentClosed.value * m.nOpened as real == (SumNat(r.rows.nSelfClosed) + SumNat(r.rows.nLiquidated)) as real
    ensures m.totalMarginTaken == Sum(MarginTakenColumn(r.rows))
  {
    var totalProfit := TotalProfit(r);
    var selfClosed, liquidated := SumNat(r.rows.nSelfClosed), SumNat(r.rows.nLiquidated);
    RunMetrics(
      liquidatorMd,
      gasTankMd,
      DrawdownShare(liquidatorMd, gasTankMd),
      Ratio(LiquidatorProfit(r), totalProfit),
      totalProfit,
      SumNat(r.rows.nOpened),
      SelfClosedShare(selfClosed, liquidated),
      Ratio((selfClosed + liquidated) as real, SumNat(r.rows.nOpened) as real),
      Sum(MarginTakenColumn(r.rows)))
  }

  /** The metrics of one run, from its P&L table: the maximum drawdowns are
      those of the liquidator's running P&L and of the tank's running P&L at
      the mean price. */
  function CalculateMetrics(r: PlResult): (m: RunMetrics)
    requires r.WellFormed() && r.rows.Length() > 0
    ensures 0.0 <= m.liquidatorMd && 0.0 <= m.gasTankMd
    ensures m.liquidatorMd == CalculateMaxDrawdown(CumSum(r.liquidatorPl))
    ensures m.gasTankMd == CalculateMaxDrawdown(GasTankUsdCum(r))
    ensures m == MetricsFrom(r, m.liquidatorMd, m.gasTankMd)
    ensures forall i, j :: 0 <= i <= j < r.rows.Length() ==>
              CumSum(r.liquidatorPl)[i] - CumSum(r.liquidatorPl)[j] <= m.liquidatorMd &&
              GasTankUsdCum(r)[i] - GasTankUsdCum(r)[j] <= m.gasTankMd
  {
    var liquidatorCum, gasTankCum := CumSum(r.liquidatorPl), GasTankUsdCum(r);
    MaxDrawdownIsLargestFall(liquidatorCum);
    MaxDrawdownIsLargestFall(gasTankCum);
    MetricsFrom(r, CalculateMaxDrawdown(liquidatorCum), CalculateMaxDrawdown(gasTankCum))
  }

  /** Each reported drawdown is a fall that actually happened: some value of
      the running P&L drops by exactly that much to a later value. */
  lemma {:induction false} MetricsDrawdownsAttained(r: PlResult)
    requires r.WellFormed() && r.rows.Length() > 0
    ensures exists i, j :: 0 <= i <= j < r.rows.Length() &&
              CumSum(r.liquidatorPl)[i] - CumSum(r.liquidatorPl)[j] == CalculateMetrics(r).liquidatorMd
    ensures exists i, j :: 0 <= i <= j < r.rows.Length() &&
              GasTankUsdCum(r)[i] - GasTankUsdCum(r)[j] == CalculateMetrics(r).gasTankMd
  {
    MaxDrawdownIsLargestFall(CumSum(r.liquidatorPl));
    MaxDrawdownIsLargestFall(GasTankUsdCum(r));
  }

  /** When no more streams closed than opened, the closed share is at most
      one, whatever the drawdowns. */
  lemma ClosedShareAtMostOne(r: PlResult, liquidatorMd: real, gasTankMd: real)
    requires r.WellFormed() && r.rows.Length() > 0
    requires 0.0 <= liquidatorMd && 0.0 <= gasTankMd
    requires SumNat(r.rows.nSelfClosed) + SumNat(r.rows.nLiquidated) <= SumNat(r.rows.nOpened)
    ensures MetricsFrom(r, liquidatorMd, gasTankMd).percentClosed.Some? ==>
              MetricsFrom(r, liquidatorMd, gasTankMd).percentClosed.value <= 1.0
  {
    var m := MetricsFrom(r, liquidatorMd, gasTankMd);
    var closed := SumNat(r.rows.nSelfClosed) + SumNat(r.rows.nLiquidated);
    if m.percentClosed.Some? {
      FractionBounds(m.percentClosed.value, closed as real, m.nOpened as real);
    }
  }

  /** The same bound for the metrics of a run. */
  lemma PercentClosedAtMostOne(r: PlResult)
    requires r.WellFormed() && r.rows.Length() > 0
    requires SumNat(r.rows.nSelfClosed) + SumNat(r.rows.nLiquidated) <= SumNat(r.rows.nOpened)
    ensures CalculateMetrics(r).percentClosed.Some? ==> CalculateMetrics(r).percentClosed.value <= 1.0
  {
    var m := CalculateMetrics(r);
    ClosedShareAtMostOne(r, m.liquidatorMd, m.gasTankMd);
  }

  /** Over a whole simulated table no more streams close than open: every
      end comes from an opening, and ends past the horizon are dropped, so
      the share of opened streams that closed is at most one. */
  lemma ClosedAtMostOpened(r: PlResult, newStreamTimes: seq<int>, ends: StreamEnds,
                           gas: seq<real>, eth: seq<real>, p: Params, d: Draws,
                           liquidationSizes: seq<real>, selfClosedSizes: seq<real>)
    requires r.WellFormed() && r.rows.Length() > 0
    requires |gas| == r.rows.Length() && |eth| == r.rows.Length()
    requires d.Fits(|newStreamTimes|) && d.NonNegative() && ProbabilitiesDefined(p)
    requires forall t :: t in newStreamTimes ==> 0 <= t
    requires |liquidationSizes| == |SimulateNaiveLiquidationTimes(newStreamTimes, r.rows.Length(), p, d).liquidationTimes|
    requires |selfClosedSizes| == |SimulateNaiveLiquidationTimes(newStreamTimes, r.rows.Length(), p, d).selfClosedTimes|
    requires ends == SimulateStreamEnds(newStreamTimes, gas, eth, r.rows.Length(), p, d, liquidationSizes, selfClosedSizes)
    requires InHorizon(newStreamTimes, r.rows.Length())
    requires r.rows.nOpened == CountsOf(newStreamTimes, r.rows.Length())
    requires r.rows.nLiquidated == CountsOf(ends.liquidationTimes, r.rows.Length())
    requires r.rows.nSelfClosed == CountsOf(ends.selfClosedTimes, r.rows.Length())
    ensures SumNat(r.rows.nSelfClosed) + SumNat(r.rows.nLiquidated) <= SumNat(r.rows.nOpened)
    ensures CalculateMetrics(r).percentClosed.Some? ==> CalculateMetrics(r).percentClosed.value <= 1.0
  {
    var n := r.rows.Length();
    CountsSum(newStreamTimes, n);
    CountsSum(ends.liquidationTimes, n);
    CountsSum(ends.selfClosedTimes, n);
    PercentClosedAtMostOne(r);
  }
}
