/**
 * The risk gate (execution/position_tracker.py): a new trade is allowed
 * only while fewer than the maximum number of positions are open, its
 * size is within the per-position maximum, and total exposure stays
 * within the capital. Checks run in that order and the first failure is
 * reported.
 */
module PositionTracker {
  import opened Common
  import opened Schemas
  import opened Ledger

  datatype Limits = Limits(maxCapital: real, maxPositionSize: real, maxOpenPositions: int)

  /** The tracker's defaults: 1000 of capital, 50 per position, 3 open positions. */
  const DefaultLimits: Limits := Limits(1000.0, 50.0, 3)

  /** The outcome of `can_trade`; each refusal names the first check that failed. */
  datatype Gate = Allowed | TooManyOpen | TooLarge | OverExposure

  /** The sizes of the open trades, in order. */
  function OpenSizes(trades: seq<TradeRecord>): (r: seq<real>)
    ensures |r| == |OpenTrades(trades)|
  {
    var open := OpenTrades(trades);
    seq(|open|, i requires 0 <= i < |open| => open[i].sizeUsd)
  }

  /** Total size of the open trades. */
  function Exposure(trades: seq<TradeRecord>): real {
    Sum(OpenSizes(trades))
  }

  /** `get_open_count`. */
  function OpenCount(trades: seq<TradeRecord>): (n: nat)
    ensures n <= |trades|
  {
    |OpenTrades(trades)|
  }

  /**
   * The count is the number of logged trades when all are still open, and
   * zero when all have been closed.
   */
  lemma {:induction false} OpenCountExtremes(trades: seq<TradeRecord>)
    ensures (forall i :: 0 <= i < |trades| ==> trades[i].IsOpen()) ==> OpenCount(trades) == |trades|
    ensures (forall i :: 0 <= i < |trades| ==> !trades[i].IsOpen()) ==> OpenCount(trades) == 0
    decreases |trades|
  {
    if |trades| > 0 {
      var init := trades[..|trades| - 1];
      OpenCountExtremes(init);
      assert forall i :: 0 <= i < |init| ==> init[i] == trades[i];
    }
  }

  /** `can_trade`: count, then size, then exposure; equality passes each check. */
  function CanTrade(limits: Limits, trades: seq<TradeRecord>, sizeUsd: real): (g: Gate)
    ensures g == TooManyOpen <==> OpenCount(trades) >= limits.maxOpenPositions
    ensures g == TooLarge <==> OpenCount(trades) < limits.maxOpenPositions && sizeUsd > limits.maxPositionSize
    ensures g == OverExposure <==> OpenCount(trades) < limits.maxOpenPositions && sizeUsd <= limits.maxPositionSize
                                   && Exposure(trades) + sizeUsd > limits.maxCapital
    ensures g == Allowed <==> OpenCount(trades) < limits.maxOpenPositions && sizeUsd <= limits.maxPositionSize
                              && Exposure(trades) + sizeUsd <= limits.maxCapital
  {
    if OpenCount(trades) >= limits.maxOpenPositions then TooManyOpen
    else if sizeUsd > limits.maxPositionSize then TooLarge
    else if Exposure(trades) + sizeUsd > limits.maxCapital then OverExposure
    else Allowed
  }

  /** `get_available_capital`: what the capital leaves after the open exposure, never negative. */
  function AvailableCapital(limits: Limits, trades: seq<TradeRecord>): (r: real)
    ensures r >= 0.0
    ensures Exposure(trades) <= limits.maxCapital ==> r + Exposure(trades) == limits.maxCapital
    ensures Exposure(trades) >= limits.maxCapital ==> r == 0.0
  {
    Max(0.0, limits.maxCapital - Exposure(trades))
  }

  /** An allowed size always fits in the available capital. */
  lemma {:induction false} AllowedFitsAvailable(limits: Limits, trades: seq<TradeRecord>, sizeUsd: real)
    requires CanTrade(limits, trades, sizeUsd) == Allowed
    ensures sizeUsd <= AvailableCapital(limits, trades)
  {
  }

  /** The risk invariant: no more open positions than allowed, and exposure within capital. */
  predicate WithinLimits(limits: Limits, trades: seq<TradeRecord>) {
    OpenCount(trades) <= limits.maxOpenPositions && Exposure(trades) <= limits.maxCapital
  }

  /** Opening a trade grows the open list by one and the exposure by its size. */
  lemma {:induction false} OpenOneMore(trades: seq<TradeRecord>, record: TradeRecord)
    requires record.IsOpen()
    ensures OpenCount(trades + [record]) == OpenCount(trades) + 1
    ensures Exposure(trades + [record]) == Exposure(trades) + record.sizeUsd
  {
    OpenTradesAppend(trades, record);
    var before := OpenSizes(trades);
    var after := OpenSizes(trades + [record]);
    assert after == before + [record.sizeUsd];
    SumAppend(before, record.sizeUsd);
  }

  /** Logging an allowed open trade keeps the risk invariant, whatever state it started from. */
  lemma {:induction false} AdmitKeepsLimits(limits: Limits, trades: seq<TradeRecord>, record: TradeRecord)
    requires record.IsOpen() && CanTrade(limits, trades, record.sizeUsd) == Allowed
    ensures WithinLimits(limits, trades + [record])
  {
    OpenOneMore(trades, record);
  }
}
