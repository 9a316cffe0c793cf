/** The event simulator: from stream opening times and the random draws of
    one run (passed in as sequences) to the closing times and sizes of the
    liquidated and the self-closed streams. */
module Events {
  import opened SeqUtil
  import opened Units

  // ---------------------------------------------------------------------------
  // Horizon filter
  // ---------------------------------------------------------------------------

  /** The mask `times < n_minutes`. */
  function BelowHorizon(times: seq<real>, nMinutes: int): (m: seq<bool>)
    ensures |m| == |times|
    ensures forall i :: 0 <= i < |times| ==> (m[i] <==> times[i] < nMinutes as real)
  {
    seq(|times|, i requires 0 <= i < |times| => times[i] < nMinutes as real)
  }

  /** What survives the horizon mask lies before the horizon and comes from `times`. */
  lemma SelectedBeforeHorizon(times: seq<real>, nMinutes: int)
    ensures forall x :: x in Select(times, BelowHorizon(times, nMinutes)) ==> x in times && x < nMinutes as real
  {
    var m := BelowHorizon(times, nMinutes);
    forall x | x in Select(times, m) ensures x in times && x < nMinutes as real {
      SelectFrom(times, m, x);
    }
  }

  /** Drops the events at or after the horizon and truncates the rest to
      their minute. On non-negative times every result is a minute of the
      horizon. */
  function RemoveInvalidTimes(times: seq<real>, nMinutes: int): (r: seq<int>)
    ensures |r| <= |times|
    ensures (forall x :: x in times ==> 0.0 <= x) ==> forall k :: 0 <= k < |r| ==> 0 <= r[k] < nMinutes
  {
    var kept := Select(times, BelowHorizon(times, nMinutes));
    SelectedBeforeHorizon(times, nMinutes);
    assert forall k :: 0 <= k < |kept| ==> kept[k] in kept;
    TruncAll(kept)
  }

  /** The filter works element by element and keeps the order: it
      distributes over concatenation ... */
  lemma RemoveInvalidTimesAppend(a: seq<real>, b: seq<real>, nMinutes: int)
    ensures RemoveInvalidTimes(a + b, nMinutes) == RemoveInvalidTimes(a, nMinutes) + RemoveInvalidTimes(b, nMinutes)
  {
    assert BelowHorizon(a + b, nMinutes) == BelowHorizon(a, nMinutes) + BelowHorizon(b, nMinutes);
    SelectAppend(a, BelowHorizon(a, nMinutes), b, BelowHorizon(b, nMinutes));
  }

  /** ... and on one event keeps it, truncated, exactly when it is before the horizon. */
  lemma RemoveInvalidTimesSingle(x: real, nMinutes: int)
    ensures RemoveInvalidTimes([x], nMinutes) == if x < nMinutes as real then [Trunc(x)] else []
  {
    assert Select([x], BelowHorizon([x], nMinutes)) == if x < nMinutes as real then [x] else [];
  }

  /** Splitting events by a mask before filtering keeps the number of events
      that fall before the horizon. */
  lemma {:induction false} RemoveInvalidTimesSplit(s: seq<real>, m: seq<bool>, nMinutes: int)
    requires |s| == |m|
    ensures |RemoveInvalidTimes(Select(s, m), nMinutes)| + |RemoveInvalidTimes(Select(s, Negate(m)), nMinutes)|
            == |RemoveInvalidTimes(s, nMinutes)|
    decreases |s|
  {
    if |s| > 0 {
      var head := [s[0]];
      var rest, mr := s[1..], m[1..];
      assert Negate(m)[1..] == Negate(mr);
      var h1: seq<real> := if m[0] then head else [];
      var h2: seq<real> := if m[0] then [] else head;
      assert Select(s, m) == h1 + Select(rest, mr);
      assert Select(s, Negate(m)) == h2 + Select(rest, Negate(mr));
      assert s == head + rest;
      RemoveInvalidTimesAppend(h1, Select(rest, mr), nMinutes);
      RemoveInvalidTimesAppend(h2, Select(rest, Negate(mr)), nMinutes);
      RemoveInvalidTimesAppend(head, rest, nMinutes);
      assert |RemoveInvalidTimes(h1, nMinutes)| + |RemoveInvalidTimes(h2, nMinutes)| == |RemoveInvalidTimes(head, nMinutes)| by {
        assert RemoveInvalidTimes([], nMinutes) == [];
      }
      RemoveInvalidTimesSplit(rest, mr, nMinutes);
    }
  }

  // ---------------------------------------------------------------------------
  // Naive closing times: competing exponential hazards
  // ---------------------------------------------------------------------------

  /** The random draws of one run, one entry per opened stream: an
      exponential waiting time to an accidental liquidation, one to a
      self-close, and a uniform draw on [0, 1) that decides the outcome. */
  datatype Draws = Draws(expLiquidation: seq<real>, expSelfClose: seq<real>, uniform: seq<real>)
  {
    predicate Fits(n: nat) {
      |expLiquidation| == n && |expSelfClose| == n && |uniform| == n
    }

    predicate NonNegative() {
      (forall x :: x in expLiquidation ==> 0.0 <= x) && (forall x :: x in expSelfClose ==> 0.0 <= x)
    }
  }

  /** Each stream closes at its opening time plus the smaller of its two
      waiting times. */
  function ShiftedTimes(times: seq<int>, d: Draws): (r: seq<real>)
    requires d.Fits(|times|)
    ensures |r| == |times|
    ensures forall i :: 0 <= i < |times| ==>
              r[i] - times[i] as real <= d.expLiquidation[i] && r[i] - times[i] as real <= d.expSelfClose[i] &&
              (r[i] - times[i] as real == d.expLiquidation[i] || r[i] - times[i] as real == d.expSelfClose[i])
  {
    seq(|times|, i requires 0 <= i < |times| => times[i] as real + Min(d.expLiquidation[i], d.expSelfClose[i]))
  }

  /** On non-negative opening times and draws, no stream closes before it opens. */
  lemma ShiftedTimesNotEarlier(times: seq<int>, d: Draws)
    requires d.Fits(|times|) && d.NonNegative()
    requires forall t :: t in times ==> 0 <= t
    ensures forall i :: 0 <= i < |times| ==> times[i] as real <= ShiftedTimes(times, d)[i]
    ensures forall x :: x in ShiftedTimes(times, d) ==> 0.0 <= x
  {
    var r := ShiftedTimes(times, d);
    forall i | 0 <= i < |times| ensures times[i] as real <= r[i] {
      assert d.expLiquidation[i] in d.expLiquidation && d.expSelfClose[i] in d.expSelfClose;
    }
    forall x | x in r ensures 0.0 <= x {
      var i :| 0 <= i < |r| && r[i] == x;
      assert times[i] in times;
    }
  }

  /** The mask `uniform < prob_closing_tx_is_liquidation`. */
  function LiquidationMask(uniform: seq<real>, probLiquidation: real): (m: seq<bool>)
    ensures |m| == |uniform|
    ensures forall i :: 0 <= i < |uniform| ==> (m[i] <==> uniform[i] < probLiquidation)
  {
    seq(|uniform|, i requires 0 <= i < |uniform| => uniform[i] < probLiquidation)
  }

  /** The exponential draws take `1 / prob_liquidated` and
      `1 / prob_self_closed` as their scales: a zero hazard is a division by
      zero and a negative scale is refused, so both hazards must be positive. */
  predicate ProbabilitiesDefined(p: Params) {
    0.0 < p.averageStreamLifetime && 0.0 < p.percentAccidentlyLiquidatedPerMonth
  }

  /** Under those conditions both hazards are positive and the liquidation
      share is a probability strictly between 0 and 1. */
  lemma ProbabilitiesPositive(p: Params)
    requires ProbabilitiesDefined(p)
    ensures PercentToDec(MonthToMinute(p.percentAccidentlyLiquidatedPerMonth)) + 1.0 / (p.averageStreamLifetime * 1440.0) != 0.0
    ensures 0.0 < LiquidationProbabilities(p).probSelfClosed && 0.0 < LiquidationProbabilities(p).probLiquidated
    ensures 0.0 < LiquidationProbabilities(p).probClosingTxIsLiquidation < 1.0
  {
    var selfClosed := 1.0 / (p.averageStreamLifetime * 1440.0);
    assert 0.0 < selfClosed;
    var q := LiquidationProbabilities(p);
    assert 0.0 < q.probLiquidated;
  }

  datatype NaiveEnds = NaiveEnds(liquidationTimes: seq<int>, selfClosedTimes: seq<int>)

  /** The liquidation and self-close minutes before the horizon, without
      considering incentives. */
  function SimulateNaiveLiquidationTimes(times: seq<int>, nMinutes: nat, p: Params, d: Draws): (r: NaiveEnds)
    requires d.Fits(|times|) && ProbabilitiesDefined(p)
    ensures |r.liquidationTimes| + |r.selfClosedTimes| <= |times|
    ensures var mask := LiquidationMask(d.uniform, LiquidationProbabilities(p).probClosingTxIsLiquidation);
            r.liquidationTimes == RemoveInvalidTimes(Select(ShiftedTimes(times, d), mask), nMinutes) &&
            r.selfClosedTimes == RemoveInvalidTimes(Select(ShiftedTimes(times, d), Negate(mask)), nMinutes)
  {
    var shifted := ShiftedTimes(times, d);
    var mask := LiquidationMask(d.uniform, LiquidationProbabilities(p).probClosingTxIsLiquidation);
    SelectPartition(shifted, mask);
    NaiveEnds(RemoveInvalidTimes(Select(shifted, mask), nMinutes),
              RemoveInvalidTimes(Select(shifted, Negate(mask)), nMinutes))
  }

  /** Before the horizon filter the two outcomes partition the samples;
      after it, every stream that closes before the horizon has exactly one
      outcome, and on non-negative inputs every closing minute lies in the
      horizon. */
  lemma NaiveOutcomePartition(times: seq<int>, nMinutes: nat, p: Params, d: Draws)
    requires d.Fits(|times|) && ProbabilitiesDefined(p)
    ensures var shifted := ShiftedTimes(times, d);
            var mask := LiquidationMask(d.uniform, LiquidationProbabilities(p).probClosingTxIsLiquidation);
            |Select(shifted, mask)| + |Select(shifted, Negate(mask))| == |times| &&
            multiset(Select(shifted, mask)) + multiset(Select(shifted, Negate(mask))) == multiset(shifted)
    ensures var r := SimulateNaiveLiquidationTimes(times, nMinutes, p, d);
            |r.liquidationTimes| + |r.selfClosedTimes| == |RemoveInvalidTimes(ShiftedTimes(times, d), nMinutes)|
    ensures (forall t :: t in times ==> 0 <= t) && d.NonNegative() ==>
            var r := SimulateNaiveLiquidationTimes(times, nMinutes, p, d);
            (forall k :: 0 <= k < |r.liquidationTimes| ==> 0 <= r.liquidationTimes[k] < nMinutes) &&
            (forall k :: 0 <= k < |r.selfClosedTimes| ==> 0 <= r.selfClosedTimes[k] < nMinutes)
  {
    var shifted := ShiftedTimes(times, d);
    var mask := LiquidationMask(d.uniform, LiquidationProbabilities(p).probClosingTxIsLiquidation);
    SelectPartition(shifted, mask);
    RemoveInvalidTimesSplit(shifted, mask, nMinutes);
    if (forall t :: t in times ==> 0 <= t) && d.NonNegative() {
      ShiftedTimesNotEarlier(times, d);
      SelectSubset(shifted, mask);
      SelectSubset(shifted, Negate(mask));
    }
  }

  // ---------------------------------------------------------------------------
  // Rational self-close versus liquidation
  // ---------------------------------------------------------------------------

  /** Every event minute indexes the price columns. */
  predicate ValidTimes(times: seq<int>, gas: seq<real>, eth: seq<real>) {
    forall i :: 0 <= i < |times| ==> 0 <= times[i] < |gas| && times[i] < |eth|
  }

  /** What a user pays to close their own stream at minute `t`: the gas of a
      standard transaction at that minute's prices, plus the savings they
      forgo by closing rather than being liquidated. */
  function SelfClosingCost(gas: seq<real>, eth: seq<real>, t: int, p: Params): real
    requires 0 <= t < |gas| && t < |eth|
  {
    GweiToEth(gas[t]) * LIQUIDATION_GAS * eth[t] + p.minSelfLiquidationSavings
  }

  /** A user lets their stream be liquidated when self-closing costs more
      than the margin they would lose. */
  predicate PrefersLiquidation(gas: seq<real>, eth: seq<real>, t: int, size: real, p: Params)
    requires 0 <= t < |gas| && t < |eth|
  {
    SelfClosingCost(gas, eth, t, p) > StreamRateToMargin(size, p.upfrontHours)
  }

  /** The mask of self-closes whose users deliberately default instead. */
  function DeliberateLiquidations(gas: seq<real>, eth: seq<real>, times: seq<int>, sizes: seq<real>, p: Params): (m: seq<bool>)
    requires |sizes| == |times| && ValidTimes(times, gas, eth)
    ensures |m| == |times|
    ensures forall i :: 0 <= i < |times| ==> (m[i] <==> PrefersLiquidation(gas, eth, times[i], sizes[i], p))
  {
    seq(|times|, i requires 0 <= i < |times| && ValidTimes(times, gas, eth) && |sizes| == |times| =>
      PrefersLiquidation(gas, eth, times[i], sizes[i], p))
  }

  /** With positive margin hours the test is a size threshold: a stream is
      deliberately liquidated exactly when its size is below 720 times the
      self-closing cost over the margin hours. A tie stays a self-close. */
  lemma DeliberateLiquidationThreshold(gas: seq<real>, eth: seq<real>, times: seq<int>, sizes: seq<real>, p: Params, i: nat)
    requires |sizes| == |times| && ValidTimes(times, gas, eth) && i < |times|
    requires 0.0 < p.upfrontHours
    ensures DeliberateLiquidations(gas, eth, times, sizes, p)[i] <==>
            sizes[i] < 720.0 * SelfClosingCost(gas, eth, times[i], p) / p.upfrontHours
    ensures StreamRateToMargin(sizes[i], p.upfrontHours) == SelfClosingCost(gas, eth, times[i], p) ==>
            !DeliberateLiquidations(gas, eth, times, sizes, p)[i]
  {
    var c := SelfClosingCost(gas, eth, times[i], p);
    var h := p.upfrontHours;
    assert StreamRateToMargin(sizes[i], h) == sizes[i] * h / 720.0;
    assert sizes[i] < 720.0 * c / h <==> sizes[i] * h < 720.0 * c;
  }

  /** Smaller streams are deliberately liquidated first: at the same minute,
      if a stream is let go, so is every smaller one. */
  lemma SmallerStreamsDefectFirst(gas: seq<real>, eth: seq<real>, times: seq<int>, sizes: seq<real>, p: Params, i: nat, j: nat)
    requires |sizes| == |times| && ValidTimes(times, gas, eth) && i < |times| && j < |times|
    requires 0.0 <= p.upfrontHours && times[i] == times[j] && sizes[i] <= sizes[j]
    requires DeliberateLiquidations(gas, eth, times, sizes, p)[j]
    ensures DeliberateLiquidations(gas, eth, times, sizes, p)[i]
  {
    StreamRateToMarginMonotone(sizes[i], sizes[j], p.upfrontHours);
  }

  // ---------------------------------------------------------------------------
  // Reclassification
  // ---------------------------------------------------------------------------

  /** The closing events of one run as parallel columns. */
  datatype StreamEnds = StreamEnds(
    liquidationTimes: seq<int>,
    selfClosedTimes: seq<int>,
    liquidationSizes: seq<real>,
    selfClosedSizes: seq<real>)
  {
    predicate WellFormed() {
      |liquidationTimes| == |liquidationSizes| && |selfClosedTimes| == |selfClosedSizes|
    }

    /** The liquidated streams as (minute, size) pairs. */
    function Liquidations(): seq<(int, real)>
      requires WellFormed()
    {
      Zip(liquidationTimes, liquidationSizes)
    }

    /** The self-closed streams as (minute, size) pairs. */
    function SelfCloses(): seq<(int, real)>
      requires WellFormed()
    {
      Zip(selfClosedTimes, selfClosedSizes)
    }
  }

  /** Moves the self-closes whose users prefer to be liquidated, with their
      sizes, to the end of the liquidation columns. */
  function FilterLiquidationsBySize(liquidationTimes: seq<int>, selfClosedTimes: seq<int>,
                                    gas: seq<real>, eth: seq<real>, p: Params,
                                    liquidationSizes: seq<real>, selfClosedSizes: seq<real>): (r: StreamEnds)
    requires |liquidationSizes| == |liquidationTimes| && |selfClosedSizes| == |selfClosedTimes|
    requires ValidTimes(selfClosedTimes, gas, eth)
    ensures r.WellFormed()
    ensures |r.liquidationTimes| + |r.selfClosedTimes| == |liquidationTimes| + |selfClosedTimes|
    ensures |liquidationTimes| <= |r.liquidationTimes|
    ensures r.liquidationTimes[..|liquidationTimes|] == liquidationTimes
    ensures r.liquidationSizes[..|liquidationTimes|] == liquidationSizes
    ensures var mask := DeliberateLiquidations(gas, eth, selfClosedTimes, selfClosedSizes, p);
            r.liquidationTimes[|liquidationTimes|..] == Select(selfClosedTimes, mask) &&
            r.liquidationSizes[|liquidationTimes|..] == Select(selfClosedSizes, mask) &&
            r.selfClosedTimes == Select(selfClosedTimes, Negate(mask)) &&
            r.selfClosedSizes == Select(selfClosedSizes, Negate(mask))
  {
    var mask := DeliberateLiquidations(gas, eth, selfClosedTimes, selfClosedSizes, p);
    SelectPartition(selfClosedTimes, mask);
    SelectZip(selfClosedTimes, selfClosedSizes, mask);
    SelectZip(selfClosedTimes, selfClosedSizes, Negate(mask));
    var r := StreamEnds(liquidationTimes + Select(selfClosedTimes, mask),
                        Select(selfClosedTimes, Negate(mask)),
                        liquidationSizes + Select(selfClosedSizes, mask),
                        Select(selfClosedSizes, Negate(mask)));
    assert r.liquidationTimes[..|liquidationTimes|] == liquidationTimes;
    assert r.liquidationSizes[..|liquidationTimes|] == liquidationSizes;
    assert r.liquidationTimes[|liquidationTimes|..] == Select(selfClosedTimes, mask);
    assert r.liquidationSizes[|liquidationTimes|..] == Select(selfClosedSizes, mask);
    r
  }

  /** Reclassification conserves streams, each with its own size: the
      (minute, size) pairs after it are those before it. */
  lemma ReclassificationConservesStreams(liquidationTimes: seq<int>, selfClosedTimes: seq<int>,
                                         gas: seq<real>, eth: seq<real>, p: Params,
                                         liquidationSizes: seq<real>, selfClosedSizes: seq<real>)
    requires |liquidationSizes| == |liquidationTimes| && |selfClosedSizes| == |selfClosedTimes|
    requires ValidTimes(selfClosedTimes, gas, eth)
    ensures var r := FilterLiquidationsBySize(liquidationTimes, selfClosedTimes, gas, eth, p, liquidationSizes, selfClosedSizes);
            multiset(r.Liquidations()) + multiset(r.SelfCloses()) ==
            multiset(Zip(liquidationTimes, liquidationSizes)) + multiset(Zip(selfClosedTimes, selfClosedSizes))
  {
    var r := FilterLiquidationsBySize(liquidationTimes, selfClosedTimes, gas, eth, p, liquidationSizes, selfClosedSizes);
    var mask := DeliberateLiquidations(gas, eth, selfClosedTimes, selfClosedSizes, p);
    var pairs := Zip(selfClosedTimes, selfClosedSizes);
    SelectZip(selfClosedTimes, selfClosedSizes, mask);
    SelectZip(selfClosedTimes, selfClosedSizes, Negate(mask));
    ZipAppend(liquidationTimes, liquidationSizes, Select(selfClosedTimes, mask), Select(selfClosedSizes, mask));
    assert r.Liquidations() == Zip(liquidationTimes, liquidationSizes) + Select(pairs, mask);
    assert r.SelfCloses() == Select(pairs, Negate(mask));
    SelectPartition(pairs, mask);
  }

  /** After reclassification every user acts rationally: each remaining
      self-close does not prefer liquidation ... */
  lemma ReclassificationKeepsWillingSelfCloses(liquidationTimes: seq<int>, selfClosedTimes: seq<int>,
                                              gas: seq<real>, eth: seq<real>, p: Params,
                                              liquidationSizes: seq<real>, selfClosedSizes: seq<real>)
    requires |liquidationSizes| == |liquidationTimes| && |selfClosedSizes| == |selfClosedTimes|
    requires ValidTimes(selfClosedTimes, gas, eth)
    ensures var r := FilterLiquidationsBySize(liquidationTimes, selfClosedTimes, gas, eth, p, liquidationSizes, selfClosedSizes);
            ValidTimes(r.selfClosedTimes, gas, eth) &&
            forall k :: 0 <= k < |r.selfClosedTimes| ==>
              !PrefersLiquidation(gas, eth, r.selfClosedTimes[k], r.selfClosedSizes[k], p)
  {
    var r := FilterLiquidationsBySize(liquidationTimes, selfClosedTimes, gas, eth, p, liquidationSizes, selfClosedSizes);
    var mask := DeliberateLiquidations(gas, eth, selfClosedTimes, selfClosedSizes, p);
    var pairs := Zip(selfClosedTimes, selfClosedSizes);
    SelectZip(selfClosedTimes, selfClosedSizes, Negate(mask));
    var kept := Select(pairs, Negate(mask));
    assert kept == r.SelfCloses();
    forall k | 0 <= k < |r.selfClosedTimes|
      ensures 0 <= r.selfClosedTimes[k] < |gas| && r.selfClosedTimes[k] < |eth|
      ensures !PrefersLiquidation(gas, eth, r.selfClosedTimes[k], r.selfClosedSizes[k], p)
    {
      assert kept[k] == (r.selfClosedTimes[k], r.selfClosedSizes[k]);
      assert kept[k] in kept;
      SelectFrom(pairs, Negate(mask), kept[k]);
      var i :| 0 <= i < |pairs| && Negate(mask)[i] && pairs[i] == kept[k];
      assert selfClosedTimes[i] == r.selfClosedTimes[k] && selfClosedSizes[i] == r.selfClosedSizes[k];
    }
  }

  /** ... and each stream moved to the liquidations does. */
  lemma ReclassificationMovesWillingDefaulters(liquidationTimes: seq<int>, selfClosedTimes: seq<int>,
                                              gas: seq<real>, eth: seq<real>, p: Params,
                                              liquidationSizes: seq<real>, selfClosedSizes: seq<real>)
    requires |liquidationSizes| == |liquidationTimes| && |selfClosedSizes| == |selfClosedTimes|
    requires ValidTimes(selfClosedTimes, gas, eth)
    ensures var r := FilterLiquidationsBySize(liquidationTimes, selfClosedTimes, gas, eth, p, liquidationSizes, selfClosedSizes);
            forall k :: |liquidationTimes| <= k < |r.liquidationTimes| ==>
              0 <= r.liquidationTimes[k] < |gas| && r.liquidationTimes[k] < |eth| &&
              PrefersLiquidation(gas, eth, r.liquidationTimes[k], r.liquidationSizes[k], p)
  {
    var r := FilterLiquidationsBySize(liquidationTimes, selfClosedTimes, gas, eth, p, liquidationSizes, selfClosedSizes);
    var mask := DeliberateLiquidations(gas, eth, selfClosedTimes, selfClosedSizes, p);
    var pairs := Zip(selfClosedTimes, selfClosedSizes);
    SelectZip(selfClosedTimes, selfClosedSizes, mask);
    var moved := Select(pairs, mask);
    var n := |liquidationTimes|;
    assert r.liquidationTimes[n..] == Select(selfClosedTimes, mask);
    assert r.liquidationSizes[n..] == Select(selfClosedSizes, mask);
    forall k | n <= k < |r.liquidationTimes|
      ensures 0 <= r.liquidationTimes[k] < |gas| && r.liquidationTimes[k] < |eth|
      ensures PrefersLiquidation(gas, eth, r.liquidationTimes[k], r.liquidationSizes[k], p)
    {
      assert r.liquidationTimes[k] == r.liquidationTimes[n..][k - n];
      assert r.liquidationSizes[k] == r.liquidationSizes[n..][k - n];
      assert moved[k - n] == (r.liquidationTimes[k], r.liquidationSizes[k]);
      assert moved[k - n] in moved;
      SelectFrom(pairs, mask, moved[k - n]);
      var i :| 0 <= i < |pairs| && mask[i] && pairs[i] == moved[k - n];
      assert selfClosedTimes[i] == r.liquidationTimes[k] && selfClosedSizes[i] == r.liquidationSizes[k];
    }
  }

  /** No willing defaulter is left behind: every self-close whose user
      prefers liquidation reappears, with its size, among the appended
      liquidations. */
  lemma ReclassificationMovesEveryDefaulter(liquidationTimes: seq<int>, selfClosedTimes: seq<int>,
                                           gas: seq<real>, eth: seq<real>, p: Params,
                                           liquidationSizes: seq<real>, selfClosedSizes: seq<real>, i: nat)
    requires |liquidationSizes| == |liquidationTimes| && |selfClosedSizes| == |selfClosedTimes|
    requires ValidTimes(selfClosedTimes, gas, eth) && i < |selfClosedTimes|
    requires PrefersLiquidation(gas, eth, selfClosedTimes[i], selfClosedSizes[i], p)
    ensures var r := FilterLiquidationsBySize(liquidationTimes, selfClosedTimes, gas, eth, p, liquidationSizes, selfClosedSizes);
            (selfClosedTimes[i], selfClosedSizes[i]) in r.Liquidations()[|liquidationTimes|..]
  {
    var r := FilterLiquidationsBySize(liquidationTimes, selfClosedTimes, gas, eth, p, liquidationSizes, selfClosedSizes);
    var mask := DeliberateLiquidations(gas, eth, selfClosedTimes, selfClosedSizes, p);
    var pairs := Zip(selfClosedTimes, selfClosedSizes);
    SelectKeeps(pairs, mask, i);
    SelectZip(selfClosedTimes, selfClosedSizes, mask);
    ZipAppend(liquidationTimes, liquidationSizes, Select(selfClosedTimes, mask), Select(selfClosedSizes, mask));
    assert r.Liquidations()[|liquidationTimes|..] == Select(pairs, mask);
  }

  // ---------------------------------------------------------------------------
  // Stream ends of one run
  // ---------------------------------------------------------------------------

  /** The naive closings followed by reclassification. The size draws are
      inputs of the lengths the naive closings give. */
  function SimulateStreamEnds(times: seq<int>, gas: seq<real>, eth: seq<real>, nMinutes: nat, p: Params, d: Draws,
                              liquidationSizes: seq<real>, selfClosedSizes: seq<real>): (r: StreamEnds)
    requires |gas| == nMinutes && |eth| == nMinutes
    requires d.Fits(|times|) && d.NonNegative() && ProbabilitiesDefined(p)
    requires forall t :: t in times ==> 0 <= t
    requires |liquidationSizes| == |SimulateNaiveLiquidationTimes(times, nMinutes, p, d).liquidationTimes|
    requires |selfClosedSizes| == |SimulateNaiveLiquidationTimes(times, nMinutes, p, d).selfClosedTimes|
    ensures r.WellFormed()
    ensures |r.liquidationTimes| + |r.selfClosedTimes| == |RemoveInvalidTimes(ShiftedTimes(times, d), nMinutes)|
    ensures |r.liquidationTimes| + |r.selfClosedTimes| <= |times|
    ensures forall k :: 0 <= k < |r.liquidationTimes| ==> 0 <= r.liquidationTimes[k] < nMinutes
    ensures forall k :: 0 <= k < |r.selfClosedTimes| ==> 0 <= r.selfClosedTimes[k] < nMinutes
    ensures ValidTimes(SimulateNaiveLiquidationTimes(times, nMinutes, p, d).selfClosedTimes, gas, eth)
    ensures var naive := SimulateNaiveLiquidationTimes(times, nMinutes, p, d);
            r == FilterLiquidationsBySize(naive.liquidationTimes, naive.selfClosedTimes, gas, eth, p,
                                          liquidationSizes, selfClosedSizes)
    ensures forall k :: 0 <= k < |r.selfClosedTimes| ==>
              !PrefersLiquidation(gas, eth, r.selfClosedTimes[k], r.selfClosedSizes[k], p)
    ensures forall k :: |SimulateNaiveLiquidationTimes(times, nMinutes, p, d).liquidationTimes| <= k < |r.liquidationTimes| ==>
              PrefersLiquidation(gas, eth, r.liquidationTimes[k], r.liquidationSizes[k], p)
  {
    var naive := SimulateNaiveLiquidationTimes(times, nMinutes, p, d);
    NaiveOutcomePartition(times, nMinutes, p, d);
    var r := FilterLiquidationsBySize(naive.liquidationTimes, naive.selfClosedTimes, gas, eth, p,
                                      liquidationSizes, selfClosedSizes);
    ReclassificationKeepsWillingSelfCloses(naive.liquidationTimes, naive.selfClosedTimes, gas, eth, p,
                                           liquidationSizes, selfClosedSizes);
    ReclassificationMovesWillingDefaulters(naive.liquidationTimes, naive.selfClosedTimes, gas, eth, p,
                                           liquidationSizes, selfClosedSizes);
    assert forall k :: 0 <= k < |naive.liquidationTimes| ==> r.liquidationTimes[k] == naive.liquidationTimes[k];
    r
  }
}
