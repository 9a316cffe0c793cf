/** The per-minute table one simulation run works on: the market series it
    is given and the binned event columns it adds. */
module SimTable {

  /** The market series: one entry per minute of the horizon. */
  datatype Market = Market(medianGasPrice: seq<real>, threeMinMedian: seq<real>, price: seq<real>)
  {
    function Length(): nat { |price| }

    predicate WellFormed() {
      |medianGasPrice| == |price| && |threeMinMedian| == |price|
    }
  }

  /** The market series with the binned event columns beside it. */
  datatype Table = Table(
    medianGasPrice: seq<real>,
    threeMinMedian: seq<real>,
    price: seq<real>,
    nOpened: seq<nat>,
    nLiquidated: seq<nat>,
    nSelfClosed: seq<nat>,
    avgLiquidationSize: seq<real>,
    avgSelfClosedSize: seq<real>)
  {
    function Length(): nat { |price| }

    predicate WellFormed() {
      |medianGasPrice| == |price| && |threeMinMedian| == |price| &&
      |nOpened| == |price| && |nLiquidated| == |price| && |nSelfClosed| == |price| &&
      |avgLiquidationSize| == |price| && |avgSelfClosedSize| == |price|
    }

    /** `df[:k]`: the first `k` rows. */
    function Prefix(k: nat): (t: Table)
      requires WellFormed() && k <= Length()
      ensures t.WellFormed() && t.Length() == k
      ensures forall i :: 0 <= i < k ==>
                t.medianGasPrice[i] == medianGasPrice[i] && t.threeMinMedian[i] == threeMinMedian[i] &&
                t.price[i] == price[i] && t.nOpened[i] == nOpened[i] && t.nLiquidated[i] == nLiquidated[i] &&
                t.nSelfClosed[i] == nSelfClosed[i] && t.avgLiquidationSize[i] == avgLiquidationSize[i] &&
                t.avgSelfClosedSize[i] == avgSelfClosedSize[i]
    {
      Table(medianGasPrice[..k], threeMinMedian[..k], price[..k], nOpened[..k], nLiquidated[..k],
            nSelfClosed[..k], avgLiquidationSize[..k], avgSelfClosedSize[..k])
    }
  }
}
