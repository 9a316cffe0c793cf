/** The P&L engine: per-minute profit and loss of the liquidator (naive or
    with perfect gas-price foresight) and of the gas tank. */
module ProfitLoss {
  import opened SeqUtil
  import opened Units
  import opened SimTable

  // ---------------------------------------------------------------------------
  // Mode selection
  // ---------------------------------------------------------------------------

  /** A lookahead below three minutes is too short for the predictive
      computation, and the naive formula is used: exactly when the window
      holds fewer than three whole minutes. */
  function IsNaive(p: Params): (b: bool)
    ensures b <==> WindowMinutes(p) < 3
  {
    p.gasPredictionAbility < 3.0 / 60.0
  }

  /** `n = int(gas_prediction_ability * 60)`: the lookahead in whole minutes,
      rounded toward zero. */
  function WindowMinutes(p: Params): (n: int)
    ensures 0.0 <= p.gasPredictionAbility ==>
              0 <= n && n as real <= p.gasPredictionAbility * 60.0 < n as real + 1.0
    ensures p.gasPredictionAbility < 0.0 ==>
              n <= 0 && p.gasPredictionAbility * 60.0 <= n as real < p.gasPredictionAbility * 60.0 + 1.0
  {
    Trunc(p.gasPredictionAbility * 60.0)
  }

  /** The predictive mode always has a window of at least one minute
      (`n - 2 >= 1`), and the boundary 3/60 itself is predictive. */
  lemma ModeBoundary(p: Params)
    ensures !IsNaive(p) ==> 3 <= WindowMinutes(p)
    ensures p.gasPredictionAbility == 3.0 / 60.0 ==> !IsNaive(p) && WindowMinutes(p) == 3
  {
    if !IsNaive(p) {
      assert 3.0 <= p.gasPredictionAbility * 60.0;
    }
  }

  // ---------------------------------------------------------------------------
  // Naive liquidator
  // ---------------------------------------------------------------------------

  /** Gas cost, in the quote currency, of one liquidation at gas price `g`
      (gwei) and asset price `e`. */
  function LiquidationGasCost(g: real, e: real): real {
    LIQUIDATION_GAS * GweiToEth(g) * e
  }

  /** Liquidator P&L per minute without gas prediction: the margin of every
      stream liquidated that minute, less the unrefunded gas of executing at
      that minute's median gas price. Every liquidation that minute earns
      the same, so a minute without liquidations earns 0. */
  function NaiveLiquidatorPl(t: Table, p: Params): (r: seq<real>)
    requires t.WellFormed()
    ensures |r| == t.Length()
    ensures forall i :: 0 <= i < t.Length() ==>
              r[i] == t.nLiquidated[i] as real *
                      (StreamRateToMargin(t.avgLiquidationSize[i], p.upfrontHours) -
                       LiquidationGasCost(t.medianGasPrice[i], t.price[i]) * (1.0 - p.refundRate))
  {
    var r := seq(t.Length(), i requires 0 <= i < t.Length() && t.WellFormed() =>
      t.nLiquidated[i] as real * StreamRateToMargin(t.avgLiquidationSize[i], p.upfrontHours) -
      LIQUIDATION_GAS * t.nLiquidated[i] as real * GweiToEth(t.medianGasPrice[i]) * t.price[i] * (1.0 - p.refundRate));
    forall i | 0 <= i < t.Length()
      ensures r[i] == t.nLiquidated[i] as real *
                      (StreamRateToMargin(t.avgLiquidationSize[i], p.upfrontHours) -
                       LiquidationGasCost(t.medianGasPrice[i], t.price[i]) * (1.0 - p.refundRate))
    {
      var n := t.nLiquidated[i] as real;
      var c := LiquidationGasCost(t.medianGasPrice[i], t.price[i]);
      assert LIQUIDATION_GAS * n * GweiToEth(t.medianGasPrice[i]) * t.price[i] == n * c;
    }
    r
  }

  /** A minute with liquidations is profitable for the naive liquidator
      exactly when one liquidation's margin covers its share of the gas. */
  lemma NaivePlSign(t: Table, p: Params, i: nat)
    requires t.WellFormed() && i < t.Length() && 0 < t.nLiquidated[i]
    ensures 0.0 <= NaiveLiquidatorPl(t, p)[i] <==>
            LiquidationGasCost(t.medianGasPrice[i], t.price[i]) * (1.0 - p.refundRate) <=
            StreamRateToMargin(t.avgLiquidationSize[i], p.upfrontHours)
  {
    var n := t.nLiquidated[i] as real;
    var x := StreamRateToMargin(t.avgLiquidationSize[i], p.upfrontHours) -
             LiquidationGasCost(t.medianGasPrice[i], t.price[i]) * (1.0 - p.refundRate);
    assert NaiveLiquidatorPl(t, p)[i] == n * x;
  }

  // ---------------------------------------------------------------------------
  // Liquidator with gas-price foresight
  // ---------------------------------------------------------------------------

  /** The predictive computation needs `3 <= n <= len + 3`. Outside that
      range the boolean index that builds the window indices (`np.arange(len
      - n + 3)[l_mask[:len - n + 3]]`) has the wrong length and raises; for
      `n >= 2·len + 3` the mask is empty and `np.zeros` of a negative size
      raises instead. */
  predicate PredictionFits(t: Table, p: Params) {
    3 <= WindowMinutes(p) <= t.Length() + 3
  }

  /** `len - n + 3`: rows that have a full forward window. */
  function OutputRows(t: Table, p: Params): int {
    t.Length() - WindowMinutes(p) + 3
  }

  /** Liquidator's share of the gas when executing row `i`'s liquidation at
      minute `i + j`, valued at row `i`'s asset price. */
  function ExecutionGasCost(t: Table, p: Params, i: nat, j: nat): real
    requires t.WellFormed() && i + j < t.Length()
  {
    LiquidationGasCost(t.threeMinMedian[i + j], t.price[i]) * (1.0 - p.refundRate)
  }

  /** Profit of executing row `i`'s liquidation `j` minutes later: the
      margin left after `j` minutes of flow, less the gas at minute `i + j`. */
  function ExecutionProfit(t: Table, p: Params, i: nat, j: nat): real
    requires t.WellFormed() && i + j < t.Length()
  {
    StreamRateToMargin(t.avgLiquidationSize[i], p.upfrontHours) -
    (j as real) * MonthToMinute(t.avgLiquidationSize[i]) -
    ExecutionGasCost(t, p, i, j)
  }

  /** The scores of the window offsets `0 .. n-3` of row `i`; every window
      index stays inside the series. */
  function ExecutionProfits(t: Table, p: Params, i: nat): (s: seq<real>)
    requires t.WellFormed() && PredictionFits(t, p) && i < OutputRows(t, p)
    ensures |s| == WindowMinutes(p) - 2
    ensures forall j :: 0 <= j < |s| ==> i + j < t.Length() && s[j] == ExecutionProfit(t, p, i, j)
  {
    var w := WindowMinutes(p) - 2;
    seq(w, j requires 0 <= j < w && t.WellFormed() && PredictionFits(t, p) && i < OutputRows(t, p) =>
      ExecutionProfit(t, p, i, j))
  }

  /** The first best offset of row `i`. */
  function BestOffset(t: Table, p: Params, i: nat): (j: nat)
    requires t.WellFormed() && PredictionFits(t, p) && i < OutputRows(t, p)
    ensures j < WindowMinutes(p) - 2 && i + j < t.Length()
    ensures forall k :: 0 <= k < WindowMinutes(p) - 2 ==> ExecutionProfit(t, p, i, k) <= ExecutionProfit(t, p, i, j)
    ensures forall k :: 0 <= k < j ==> ExecutionProfit(t, p, i, k) < ExecutionProfit(t, p, i, j)
  {
    var s := ExecutionProfits(t, p, i);
    var j := FirstArgmax(s);
    assert forall k :: 0 <= k < |s| ==> s[k] == ExecutionProfit(t, p, i, k);
    j
  }

  /** Predictive P&L of row `i`: 0 without a liquidation, else the best
      profit over the window (one liquidation's, whatever the count). */
  function PredictedPl(t: Table, p: Params, i: nat): (r: real)
    requires t.WellFormed() && PredictionFits(t, p) && i < OutputRows(t, p)
    ensures t.nLiquidated[i] == 0 ==> r == 0.0
    ensures t.nLiquidated[i] > 0 ==>
              forall j :: 0 <= j < WindowMinutes(p) - 2 ==> ExecutionProfit(t, p, i, j) <= r
    ensures t.nLiquidated[i] > 0 ==>
              exists j :: 0 <= j < WindowMinutes(p) - 2 && i + j < t.Length() && r == ExecutionProfit(t, p, i, j)
  {
    if t.nLiquidated[i] == 0 then 0.0 else ExecutionProfit(t, p, i, BestOffset(t, p, i))
  }

  /** Gas price paid at row `i`: 0 without a liquidation, else the gas at the
      first best execution minute. */
  function PredictedGasPaid(t: Table, p: Params, i: nat): (r: real)
    requires t.WellFormed() && PredictionFits(t, p) && i < OutputRows(t, p)
    ensures t.nLiquidated[i] == 0 ==> r == 0.0
    ensures t.nLiquidated[i] > 0 ==> r == t.threeMinMedian[i + BestOffset(t, p, i)]
  {
    if t.nLiquidated[i] == 0 then 0.0 else t.threeMinMedian[i + BestOffset(t, p, i)]
  }

  /** The argmax over row `i`'s window: the best profit and the gas price
      paid at the first minute attaining it. */
  method BestExecution(t: Table, p: Params, i: nat) returns (pl: real, gasPaid: real)
    requires t.WellFormed() && PredictionFits(t, p) && i < OutputRows(t, p)
    requires t.nLiquidated[i] > 0
    ensures pl == PredictedPl(t, p, i) && gasPaid == PredictedGasPaid(t, p, i)
  {
    var scores := ExecutionProfits(t, p, i);
    var best := ArgmaxIndex(scores);
    pl, gasPaid := scores[best], t.threeMinMedian[i + best];
  }

  /** Zero-initialised output columns, with the rows that hold a liquidation
      overwritten by the best execution in their window; the output is cut to
      the rows that have a full window. */
  method LiquidatorPlWithPrediction(t: Table, p: Params) returns (gasPricesPaid: array<real>, liquidatorPl: array<real>)
    requires t.WellFormed() && PredictionFits(t, p)
    ensures gasPricesPaid.Length == OutputRows(t, p) && liquidatorPl.Length == OutputRows(t, p)
    ensures forall i :: 0 <= i < OutputRows(t, p) ==>
              liquidatorPl[i] == PredictedPl(t, p, i) && gasPricesPaid[i] == PredictedGasPaid(t, p, i)
  {
    var rows := OutputRows(t, p);
    gasPricesPaid := new real[rows](_ => 0.0);
    liquidatorPl := new real[rows](_ => 0.0);
    var i := 0;
    while i < rows
      invariant 0 <= i <= rows
      invariant forall r :: 0 <= r < i ==>
                  liquidatorPl[r] == PredictedPl(t, p, r) && gasPricesPaid[r] == PredictedGasPaid(t, p, r)
      invariant forall r :: i <= r < rows ==> liquidatorPl[r] == 0.0 && gasPricesPaid[r] == 0.0
    {
      if t.nLiquidated[i] > 0 {
        liquidatorPl[i], gasPricesPaid[i] := BestExecution(t, p, i);
      }
      i := i + 1;
    }
  }

  /** Foresight never hurts: the predictive P&L of a liquidation row is at
      least the profit of executing at once, which for a single liquidation
      priced on the same gas series is the naive P&L. */
  lemma PredictionNeverWorse(t: Table, p: Params, i: nat)
    requires t.WellFormed() && PredictionFits(t, p) && i < OutputRows(t, p)
    requires t.nLiquidated[i] > 0
    ensures ExecutionProfit(t, p, i, 0) <= PredictedPl(t, p, i)
    ensures t.nLiquidated[i] == 1 && t.threeMinMedian[i] == t.medianGasPrice[i] ==>
              NaiveLiquidatorPl(t, p)[i] <= PredictedPl(t, p, i)
  {
    assert 0 < WindowMinutes(p) - 2;
  }

  /** When the gas savings of waiting one more minute always outweigh the
      margin that minute's flow erodes, the liquidator waits for the last
      minute of the window. */
  lemma FallingGasPicksLastMinute(t: Table, p: Params, i: nat)
    requires t.WellFormed() && PredictionFits(t, p) && i < OutputRows(t, p)
    requires forall j :: 0 <= j < WindowMinutes(p) - 3 ==>
               ExecutionGasCost(t, p, i, j + 1) + MonthToMinute(t.avgLiquidationSize[i]) < ExecutionGasCost(t, p, i, j)
    ensures BestOffset(t, p, i) == WindowMinutes(p) - 3
  {
    var s := ExecutionProfits(t, p, i);
    forall j | 0 <= j < |s| - 1 ensures s[j] < s[j + 1] {
      var rate := MonthToMinute(t.avgLiquidationSize[i]);
      assert ExecutionProfit(t, p, i, j) ==
             StreamRateToMargin(t.avgLiquidationSize[i], p.upfrontHours) - (j as real) * rate - ExecutionGasCost(t, p, i, j);
      assert ExecutionProfit(t, p, i, j + 1) ==
             StreamRateToMargin(t.avgLiquidationSize[i], p.upfrontHours) - (j as real) * rate - rate - ExecutionGasCost(t, p, i, j + 1);
    }
    FirstArgmaxIncreasing(s);
  }

  // ---------------------------------------------------------------------------
  // Gas tank
  // ---------------------------------------------------------------------------

  /** Ether the gas tank refunds for `n` liquidations at gas price `g`. */
  function GasRefundedEth(n: nat, g: real, p: Params): real {
    LIQUIDATION_GAS * n as real * GweiToEth(g) * p.refundRate
  }

  /** The gas column the refund is priced from: the median gas price in
      naive mode, the gas price actually paid otherwise. */
  function RefundGasColumn(rows: Table, gasPricePaid: Option<seq<real>>, p: Params): (g: seq<real>)
    requires IsNaive(p) || gasPricePaid.Some?
    ensures IsNaive(p) ==> g == rows.medianGasPrice
    ensures !IsNaive(p) ==> g == gasPricePaid.value
  {
    if IsNaive(p) then rows.medianGasPrice else gasPricePaid.value
  }

  /** The gas tank's columns row by row: the refunded ether for the row's
      liquidations at the row's gas price, the tank's ether P&L (upfront fees
      of the streams opened that minute less the refund), and that P&L in the
      quote currency. */
  predicate GasTankRows(rows: Table, gas: seq<real>, p: Params,
                        refunded: seq<real>, ethPl: seq<real>, usdPl: seq<real>)
    requires rows.WellFormed() && |gas| == rows.Length()
  {
    |refunded| == rows.Length() && |ethPl| == rows.Length() && |usdPl| == rows.Length() &&
    forall i :: 0 <= i < rows.Length() ==>
      refunded[i] == GasRefundedEth(rows.nLiquidated[i], gas[i], p) &&
      ethPl[i] == rows.nOpened[i] as real * p.upfrontFee - refunded[i] &&
      usdPl[i] == ethPl[i] * rows.price[i]
  }

  /** Fills the gas tank columns, the refund priced from the mode's gas column. */
  method CalculateGasTankPl(rows: Table, gasPricePaid: Option<seq<real>>, p: Params)
    returns (gasRefundedEth: array<real>, gasTankEthPl: array<real>, gasTankUsdPl: array<real>)
    requires rows.WellFormed()
    requires IsNaive(p) || gasPricePaid.Some?
    requires gasPricePaid.Some? ==> |gasPricePaid.value| == rows.Length()
    ensures GasTankRows(rows, RefundGasColumn(rows, gasPricePaid, p), p,
                        gasRefundedEth[..], gasTankEthPl[..], gasTankUsdPl[..])
  {
    var gas := RefundGasColumn(rows, gasPricePaid, p);
    var n := rows.Length();
    gasRefundedEth := new real[n];
    gasTankEthPl := new real[n];
    gasTankUsdPl := new real[n];
    for i := 0 to n
      invariant forall r :: 0 <= r < i ==>
                  gasRefundedEth[r] == GasRefundedEth(rows.nLiquidated[r], gas[r], p) &&
                  gasTankEthPl[r] == rows.nOpened[r] as real * p.upfrontFee - gasRefundedEth[r] &&
                  gasTankUsdPl[r] == gasTankEthPl[r] * rows.price[r]
    {
      gasRefundedEth[i] := GasRefundedEth(rows.nLiquidated[i], gas[i], p);
      gasTankEthPl[i] := rows.nOpened[i] as real * p.upfrontFee - gasRefundedEth[i];
      gasTankUsdPl[i] := gasTankEthPl[i] * rows.price[i];
    }
  }

  /** Summed over the run, the tank's ether P&L is the upfront fees of all
      opened streams less all refunds. */
  lemma {:induction false} GasTankTotal(nOpened: seq<nat>, refunded: seq<real>, ethPl: seq<real>, fee: real)
    requires |nOpened| == |refunded| == |ethPl|
    requires forall i :: 0 <= i < |ethPl| ==> ethPl[i] == nOpened[i] as real * fee - refunded[i]
    ensures Sum(ethPl) == SumNat(nOpened) as real * fee - Sum(refunded)
    decreases |ethPl|
  {
    if |ethPl| > 0 {
      GasTankTotal(nOpened[1..], refunded[1..], ethPl[1..], fee);
      assert SumNat(nOpened) as real * fee == nOpened[0] as real * fee + SumNat(nOpened[1..]) as real * fee;
    }
  }

  /** The algebra of the refund: the liquidator bears `1 - refund_rate` of
      the gas and the tank `refund_rate`, so together they bear all of it. */
  lemma RefundSplit(n: real, m: real, g: real, e: real, rr: real)
    ensures (n * m - LIQUIDATION_GAS * n * g * e * (1.0 - rr)) - LIQUIDATION_GAS * n * g * rr * e ==
            n * (m - LIQUIDATION_GAS * g * e)
  {
    var x := LIQUIDATION_GAS * n * g * e;
    calc {
      LIQUIDATION_GAS * n * g * rr * e;
      (LIQUIDATION_GAS * n * g) * (rr * e);
      (LIQUIDATION_GAS * n * g) * (e * rr);
      x * rr;
    }
    assert x * (1.0 - rr) == x - x * rr;
    calc {
      n * (m - LIQUIDATION_GAS * g * e);
      n * m - n * (LIQUIDATION_GAS * g * e);
      { assert n * (LIQUIDATION_GAS * g * e) == (LIQUIDATION_GAS * n) * g * e; }
      n * m - x;
    }
  }

  /** In naive mode the refund and the liquidator's cost split the full gas
      bill: liquidator P&L less the refund the tank pays, valued at the asset
      price, is the captured margin less the whole gas cost. */
  lemma NaiveGasCostSplit(t: Table, p: Params, i: nat)
    requires t.WellFormed() && i < t.Length()
    ensures NaiveLiquidatorPl(t, p)[i] - GasRefundedEth(t.nLiquidated[i], t.medianGasPrice[i], p) * t.price[i] ==
            t.nLiquidated[i] as real *
            (StreamRateToMargin(t.avgLiquidationSize[i], p.upfrontHours) - LiquidationGasCost(t.medianGasPrice[i], t.price[i]))
  {
    RefundSplit(t.nLiquidated[i] as real, StreamRateToMargin(t.avgLiquidationSize[i], p.upfrontHours),
                GweiToEth(t.medianGasPrice[i]), t.price[i], p.refundRate);
  }

  /** With foresight, for a row with a single liquidation the refund and the
      liquidator's cost likewise split the gas bill at the chosen minute. */
  lemma PredictiveGasCostSplit(t: Table, p: Params, i: nat)
    requires t.WellFormed() && PredictionFits(t, p) && i < OutputRows(t, p)
    requires t.nLiquidated[i] == 1
    ensures var j := BestOffset(t, p, i);
            PredictedPl(t, p, i) - GasRefundedEth(t.nLiquidated[i], PredictedGasPaid(t, p, i), p) * t.price[i] ==
            StreamRateToMargin(t.avgLiquidationSize[i], p.upfrontHours) - (j as real) * MonthToMinute(t.avgLiquidationSize[i]) -
            LiquidationGasCost(PredictedGasPaid(t, p, i), t.price[i])
  {
    var j := BestOffset(t, p, i);
    var m := StreamRateToMargin(t.avgLiquidationSize[i], p.upfrontHours) - (j as real) * MonthToMinute(t.avgLiquidationSize[i]);
    RefundSplit(1.0, m, GweiToEth(t.threeMinMedian[i + j]), t.price[i], p.refundRate);
  }

  // ---------------------------------------------------------------------------
  // Both parties
  // ---------------------------------------------------------------------------

  /** The table after P&L: its rows (cut to the predictive window in
      predictive mode) and the liquidator and gas-tank columns. */
  datatype PlResult = PlResult(
    rows: Table,
    liquidatorPl: seq<real>,
    gasPricePaid: Option<seq<real>>,
    gasRefundedEth: seq<real>,
    gasTankEthPl: seq<real>,
    gasTankUsdPl: seq<real>)
  {
    predicate WellFormed() {
      rows.WellFormed() && |liquidatorPl| == rows.Length() &&
      (gasPricePaid.Some? ==> |gasPricePaid.value| == rows.Length()) &&
      |gasRefundedEth| == rows.Length() && |gasTankEthPl| == rows.Length() && |gasTankUsdPl| == rows.Length()
    }
  }

  /** Liquidator P&L in the mode the lookahead selects, then the gas tank's,
      the refund priced from the same mode's gas column. */
  method CalculateAllPl(t: Table, p: Params) returns (r: PlResult)
    requires t.WellFormed()
    requires !IsNaive(p) ==> WindowMinutes(p) <= t.Length() + 3
    ensures r.WellFormed()
    ensures IsNaive(p) ==> r.rows == t && r.liquidatorPl == NaiveLiquidatorPl(t, p) && r.gasPricePaid.None?
    ensures !IsNaive(p) ==>
              PredictionFits(t, p) && r.rows == t.Prefix(OutputRows(t, p)) && r.gasPricePaid.Some? &&
              forall i :: 0 <= i < r.rows.Length() ==>
                r.liquidatorPl[i] == PredictedPl(t, p, i) && r.gasPricePaid.value[i] == PredictedGasPaid(t, p, i)
    ensures GasTankRows(r.rows, RefundGasColumn(r.rows, r.gasPricePaid, p), p,
                        r.gasRefundedEth, r.gasTankEthPl, r.gasTankUsdPl)
  {
    var rows: Table;
    var liquidatorPl: seq<real>;
    var gasPricePaid: Option<seq<real>>;
    if IsNaive(p) {
      rows, liquidatorPl, gasPricePaid := t, NaiveLiquidatorPl(t, p), None;
    } else {
      ModeBoundary(p);
      var paid, pl := LiquidatorPlWithPrediction(t, p);
      rows, liquidatorPl, gasPricePaid := t.Prefix(OutputRows(t, p)), pl[..], Some(paid[..]);
      assert forall i :: 0 <= i < rows.Length() ==>
               liquidatorPl[i] == PredictedPl(t, p, i) && gasPricePaid.value[i] == PredictedGasPaid(t, p, i);
    }
    var refunded, ethPl, usdPl := CalculateGasTankPl(rows, gasPricePaid, p);
    r := PlResult(rows, liquidatorPl, gasPricePaid, refunded[..], ethPl[..], usdPl[..]);
  }
}
