/** The binning aggregator: per-event minutes and sizes onto the per-minute
    grid of the market series. */
module Binning {
  import opened SeqUtil
  import opened Events
  import opened SimTable

  /** The first position of `t` in `times` (numpy's `unique(..., return_index=True)`). */
  function FirstIndex(times: seq<int>, t: int): (k: nat)
    requires t in times
    ensures k < |times| && times[k] == t
    ensures forall j :: 0 <= j < k ==> times[j] != t
    decreases |times|
  {
    if times[0] == t then 0 else 1 + FirstIndex(times[1..], t)
  }

  /** The size recorded for minute `t`: that of the first event at `t`, or 0. */
  function BinnedSize(times: seq<int>, sizes: seq<real>, t: int): real
    requires |times| <= |sizes|
  {
    if t in times then sizes[FirstIndex(times, t)] else 0.0
  }

  /** The count column: entry `t` is the number of events at minute `t`. */
  function CountsOf(times: seq<int>, nMinutes: nat): (r: seq<nat>)
    ensures |r| == nMinutes
  {
    seq(nMinutes, t requires 0 <= t < nMinutes => multiset(times)[t])
  }

  predicate InHorizon(times: seq<int>, nMinutes: nat) {
    forall k :: 0 <= k < |times| ==> 0 <= times[k] < nMinutes
  }

  lemma {:induction false} SumNatZero(s: seq<nat>)
    requires forall i :: 0 <= i < |s| ==> s[i] == 0
    ensures SumNat(s) == 0
    decreases |s|
  {
    if |s| > 0 {
      SumNatZero(s[1..]);
    }
  }

  /** When every event is in the horizon, the counts add up to the number of events. */
  lemma {:induction false} CountsSum(times: seq<int>, nMinutes: nat)
    requires InHorizon(times, nMinutes)
    ensures SumNat(CountsOf(times, nMinutes)) == |times|
    decreases |times|
  {
    if |times| == 0 {
      SumNatZero(CountsOf(times, nMinutes));
    } else {
      var prev, x := times[..|times| - 1], times[|times| - 1];
      assert times == prev + [x];
      CountsSum(prev, nMinutes);
      assert CountsOf(times, nMinutes) == CountsOf(prev, nMinutes)[x := CountsOf(prev, nMinutes)[x] + 1];
      SumNatIncrement(CountsOf(prev, nMinutes), x);
    }
  }

  /** Events on distinct minutes bin to counts of at most one. */
  lemma DistinctTimesBinToIndicators(times: seq<int>, nMinutes: nat)
    requires forall i, j :: 0 <= i < j < |times| ==> times[i] != times[j]
    ensures forall t :: 0 <= t < nMinutes ==> CountsOf(times, nMinutes)[t] == if t in times then 1 else 0
  {
    forall t | 0 <= t < nMinutes
      ensures multiset(times)[t] == if t in times then 1 else 0
    {
      DistinctCount(times, t);
    }
  }

  lemma {:induction false} DistinctCount(times: seq<int>, t: int)
    requires forall i, j :: 0 <= i < j < |times| ==> times[i] != times[j]
    ensures multiset(times)[t] == if t in times then 1 else 0
    decreases |times|
  {
    if |times| > 0 {
      assert times == [times[0]] + times[1..];
      DistinctCount(times[1..], t);
      if times[0] == t {
        assert t !in times[1..];
      }
    }
  }

  /** What one more event does to the counts and first positions of a prefix. */
  lemma PrefixStep(times: seq<int>, k: nat)
    requires k < |times|
    ensures forall u :: multiset(times[..k + 1])[u] == multiset(times[..k])[u] + if u == times[k] then 1 else 0
    ensures forall u :: u in times[..k + 1] <==> u in times[..k] || u == times[k]
    ensures times[k] !in times[..k] ==> FirstIndex(times, times[k]) == k
  {
    assert times[..k + 1] == times[..k] + [times[k]];
  }

  /** Bins event minutes into a per-minute count array and, when sizes are
      given, a per-minute size array holding the size of the first event at
      each minute (not an average). */
  method BinTimesAndSizes(times: seq<int>, nMinutes: nat, sizes: Option<seq<real>>)
    returns (counts: array<nat>, binnedSizes: Option<array<real>>)
    requires InHorizon(times, nMinutes)
    requires sizes.Some? ==> |times| <= |sizes.value|
    ensures counts.Length == nMinutes
    ensures forall t :: 0 <= t < nMinutes ==> counts[t] == multiset(times)[t]
    ensures SumNat(counts[..]) == |times|
    ensures binnedSizes.Some? <==> sizes.Some?
    ensures binnedSizes.Some? ==> binnedSizes.value.Length == nMinutes
    ensures binnedSizes.Some? ==> forall t :: 0 <= t < nMinutes ==>
              binnedSizes.value[t] == BinnedSize(times, sizes.value, t)
  {
    counts := new nat[nMinutes](_ => 0);
    var firstSizes := new real[if sizes.Some? then nMinutes else 0](_ => 0.0);
    var k := 0;
    while k < |times|
      invariant 0 <= k <= |times|
      invariant forall t :: 0 <= t < nMinutes ==> counts[t] == multiset(times[..k])[t]
      invariant sizes.Some? ==> forall t :: 0 <= t < nMinutes ==>
                  firstSizes[t] == if t in times[..k] then sizes.value[FirstIndex(times, t)] else 0.0
    {
      var t := times[k];
      PrefixStep(times, k);
      if counts[t] == 0 && sizes.Some? {
        firstSizes[t] := sizes.value[k];
      }
      counts[t] := counts[t] + 1;
      k := k + 1;
    }
    assert times[..k] == times;
    assert counts[..] == CountsOf(times, nMinutes);
    CountsSum(times, nMinutes);
    binnedSizes := if sizes.Some? then Some(firstSizes) else None;
  }

  /** Bins the opened, liquidated and self-closed streams of one run into
      table columns beside the market series. */
  method RunAllSimulations(m: Market, newStreamTimes: seq<int>, ends: StreamEnds) returns (t: Table)
    requires m.WellFormed() && ends.WellFormed()
    requires InHorizon(newStreamTimes, m.Length())
    requires InHorizon(ends.liquidationTimes, m.Length()) && InHorizon(ends.selfClosedTimes, m.Length())
    ensures t.WellFormed() && t.Length() == m.Length()
    ensures t.medianGasPrice == m.medianGasPrice && t.threeMinMedian == m.threeMinMedian && t.price == m.price
    ensures t.nOpened == CountsOf(newStreamTimes, m.Length())
    ensures t.nLiquidated == CountsOf(ends.liquidationTimes, m.Length())
    ensures t.nSelfClosed == CountsOf(ends.selfClosedTimes, m.Length())
    ensures forall i :: 0 <= i < t.Length() ==>
              t.avgLiquidationSize[i] == BinnedSize(ends.liquidationTimes, ends.liquidationSizes, i) &&
              t.avgSelfClosedSize[i] == BinnedSize(ends.selfClosedTimes, ends.selfClosedSizes, i)
    ensures SumNat(t.nOpened) == |newStreamTimes|
    ensures SumNat(t.nLiquidated) + SumNat(t.nSelfClosed) == |ends.liquidationTimes| + |ends.selfClosedTimes|
  {
    var n := m.Length();
    var openCounts, noSizes := BinTimesAndSizes(newStreamTimes, n, None);
    var liquidated, liquidationSizes := BinTimesAndSizes(ends.liquidationTimes, n, Some(ends.liquidationSizes));
    var selfClosed, selfClosedSizes := BinTimesAndSizes(ends.selfClosedTimes, n, Some(ends.selfClosedSizes));
    assert openCounts[..] == CountsOf(newStreamTimes, n);
    assert liquidated[..] == CountsOf(ends.liquidationTimes, n);
    assert selfClosed[..] == CountsOf(ends.selfClosedTimes, n);
    t := Table(m.medianGasPrice, m.threeMinMedian, m.price, openCounts[..], liquidated[..], selfClosed[..],
               liquidationSizes.value[..], selfClosedSizes.value[..]);
  }
}
