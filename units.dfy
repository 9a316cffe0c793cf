/** Constants, the simulation parameter record, unit conversions and the
    arrival-rate calculations of the liquidation P&L simulator.
    Quantities are exact reals standing in for float64. */
module Units {
  import opened SeqUtil

  /** Gas used by one liquidation transaction. */
  const LIQUIDATION_GAS: real := 300000.0

  /** Minutes in the simulator's 30-day month. */
  const MINUTES_PER_MONTH: real := 43200.0

  /** The parameters one simulation run consumes. Stream sizes are flow
      rates per month; `upfrontHours` is the margin a stream posts, in hours
      of flow; `gasPredictionAbility` is in hours of lookahead. */
  datatype Params = Params(
    upfrontFee: real,
    monthlyOpenedStreams: real,
    averageStreamLifetime: real,               // days
    percentAccidentlyLiquidatedPerMonth: real,
    averageStreamSize: real,
    upfrontHours: real,
    refundRate: real,
    minSelfLiquidationSavings: real,
    gasPredictionAbility: real
  )

  // ---------------------------------------------------------------------------
  // Conversions
  // ---------------------------------------------------------------------------

  /** A gas price in gwei, as ether. */
  function GweiToEth(g: real): (r: real)
    ensures r * 1000000000.0 == g
  {
    g * 0.000000001
  }

  /** A per-month amount, as a per-hour amount. */
  function MonthToHour(x: real): (r: real)
    ensures r * 720.0 == x
  {
    x / 30.0 / 24.0
  }

  /** A per-month amount, as a per-minute amount. */
  function MonthToMinute(x: real): (r: real)
    ensures r * MINUTES_PER_MONTH == x
    ensures r * 60.0 == MonthToHour(x)
  {
    x / 30.0 / 24.0 / 60.0
  }

  /** A duration in minutes, as months. */
  function MinuteToMonth(x: real): (r: real)
    ensures r * MINUTES_PER_MONTH == x
  {
    x / 60.0 / 24.0 / 30.0
  }

  function PercentToDec(x: real): (r: real)
    ensures r * 100.0 == x
  {
    x / 100.0
  }

  /** The margin a stream of the given monthly rate posts for `marginHours` hours. */
  function StreamRateToMargin(streamRate: real, marginHours: real): (r: real)
    ensures r * 720.0 == streamRate * marginHours
    ensures 0.0 <= streamRate && 0.0 <= marginHours ==> 0.0 <= r
  {
    MonthToHour(streamRate) * marginHours
  }

  /** A larger stream posts at least as much margin. */
  lemma StreamRateToMarginMonotone(a: real, b: real, hours: real)
    requires a <= b && 0.0 <= hours
    ensures StreamRateToMargin(a, hours) <= StreamRateToMargin(b, hours)
  {
    var d := b - a;
    assert 0.0 <= d * hours;
    assert StreamRateToMargin(b, hours) == StreamRateToMargin(a, hours) + d * hours / 720.0;
  }

  // ---------------------------------------------------------------------------
  // Arrival rates
  // ---------------------------------------------------------------------------

  datatype Probabilities = Probabilities(
    probSelfClosed: real,
    probLiquidated: real,
    probClosingTxIsLiquidation: real
  )

  /** Per-minute hazards of a self-close and of an accidental liquidation,
      and the chance that a closing transaction is a liquidation. */
  function LiquidationProbabilities(p: Params): (r: Probabilities)
    requires p.averageStreamLifetime != 0.0
    requires PercentToDec(MonthToMinute(p.percentAccidentlyLiquidatedPerMonth)) + 1.0 / (p.averageStreamLifetime * 1440.0) != 0.0
    ensures r.probSelfClosed * p.averageStreamLifetime * 1440.0 == 1.0
    ensures r.probLiquidated * 100.0 * MINUTES_PER_MONTH == p.percentAccidentlyLiquidatedPerMonth
    ensures r.probClosingTxIsLiquidation * (r.probLiquidated + r.probSelfClosed) == r.probLiquidated
    ensures 0.0 < p.averageStreamLifetime && 0.0 <= p.percentAccidentlyLiquidatedPerMonth ==>
              0.0 <= r.probClosingTxIsLiquidation < 1.0
  {
    var probSelfClosed := 1.0 / (p.averageStreamLifetime * 24.0 * 60.0);
    var probLiquidated := PercentToDec(MonthToMinute(p.percentAccidentlyLiquidatedPerMonth));
    Probabilities(probSelfClosed, probLiquidated, probLiquidated / (probLiquidated + probSelfClosed))
  }

  /** `int(monthly_opened_streams * n_months // 1)`: the expected number of
      openings over the horizon, rounded down. */
  function OpeningCount(p: Params, nMinutes: nat): (r: int)
    ensures r as real <= p.monthlyOpenedStreams * MinuteToMonth(nMinutes as real) < r as real + 1.0
    ensures 0.0 <= p.monthlyOpenedStreams ==> 0 <= r
  {
    (p.monthlyOpenedStreams * MinuteToMonth(nMinutes as real)).Floor
  }

  /** `sample_new_stream_times`: one uniform draw on [0, nMinutes) per
      expected opening, each truncated to its minute. A draw's minute is the
      whole part of the draw, so draws inside the horizon open streams at
      minutes of the horizon. */
  function NewStreamTimes(draws: seq<real>, nMinutes: nat, p: Params): (r: seq<int>)
    requires |draws| == OpeningCount(p, nMinutes)
    ensures |r| == OpeningCount(p, nMinutes)
    ensures forall i :: 0 <= i < |draws| && 0.0 <= draws[i] ==> 0 <= r[i] && r[i] as real <= draws[i] < r[i] as real + 1.0
    ensures forall i :: 0 <= i < |draws| && 0.0 <= draws[i] < nMinutes as real ==> 0 <= r[i] < nMinutes
  {
    TruncAll(draws)
  }
}
