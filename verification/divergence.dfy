/**
 * The divergence detector (strategy/divergence_detector.py): the odds a
 * price move implies, and the three gates a paired tick and snapshot
 * must pass before a signal is emitted.
 */
module Divergence {
  import opened Common
  import opened Schemas
  import opened Thresholds
  import opened Signal
  import opened Momentum
  import opened Aggregator

  /** Odds adjustment per percent of price momentum. */
  const OddsPerMomentumPct: real := 0.03

  /** `compute_implied_odds`: the current odds shifted by 0.03 per percent of momentum, kept within [0.01, 0.99]. */
  function ImpliedOdds(currentOdds: real, momentumPct: real): (r: real)
    ensures 0.01 <= r <= 0.99
    ensures 0.01 <= currentOdds + momentumPct * OddsPerMomentumPct <= 0.99 ==>
      r == currentOdds + momentumPct * OddsPerMomentumPct
  {
    Clamp(currentOdds + momentumPct * OddsPerMomentumPct, 0.01, 0.99)
  }

  /** Stronger momentum never implies lower odds. */
  lemma {:induction false} ImpliedOddsMonotone(odds: real, m1: real, m2: real)
    requires m1 <= m2
    ensures ImpliedOdds(odds, m1) <= ImpliedOdds(odds, m2)
  {
  }

  /** At even odds, a 2% move implies 0.56. */
  lemma {:induction false} ImpliedOddsExample()
    ensures ImpliedOdds(0.50, 2.0) == 0.56
  {
  }

  /** The edge in percentage points between the implied and the market odds. */
  function EdgePct(midpoint: real, momentumPct: real): real {
    (ImpliedOdds(midpoint, momentumPct) - midpoint) * 100.0
  }

  /** The detector's score: `composite_score` called without an average volume. */
  function DetectorScore(edgePct: real, momentumPct: real, volume24h: real): real {
    CompositeScore(edgePct, momentumPct, volume24h, 0.0)
  }

  /** Whether a paired tick with the given momentum passes all three gates. */
  predicate PassesGates(momentumPct: real, midpoint: real, volume24h: real, minEdgePct: real, minSignalScore: real) {
    && Abs(momentumPct) >= MinMomentumPct
    && Abs(EdgePct(midpoint, momentumPct)) >= minEdgePct
    && DetectorScore(EdgePct(midpoint, momentumPct), momentumPct, volume24h) >= minSignalScore
  }

  /**
   * `_evaluate` against a given momentum: three gates in order (momentum
   * against the fixed `MinMomentumPct`, edge, score), then the signal.
   */
  function EvaluateWith(momentumPct: real, paired: PairedData, minEdgePct: real, minSignalScore: real): (r: Option<DivergenceSignal>)
    ensures r.Some? <==> PassesGates(momentumPct, paired.odds.midpoint, paired.tick.volume24h, minEdgePct, minSignalScore)
    ensures r.Some? ==>
      && r.value.symbol == paired.tick.symbol && r.value.price == paired.tick.price
      && r.value.oddsMidpoint == paired.odds.midpoint
      && r.value.conditionId == paired.odds.conditionId && r.value.tokenId == paired.odds.tokenId
      && r.value.momentumPct == momentumPct
      && (r.value.direction == "UP" <==> momentumPct > 0.0)
      && (r.value.direction == "UP" || r.value.direction == "DOWN")
      && Abs(r.value.edgePct) >= minEdgePct
      && minSignalScore <= r.value.signalScore <= 0.8
      && 0.01 <= r.value.impliedFairOdds <= 0.99
  {
    var tick := paired.tick;
    var odds := paired.odds;
    if Abs(momentumPct) < MinMomentumPct then None
    else
      var implied := ImpliedOdds(odds.midpoint, momentumPct);
      var edge := (implied - odds.midpoint) * 100.0;
      if Abs(edge) < minEdgePct then None
      else
        var score := DetectorScore(edge, momentumPct, tick.volume24h);
        if score < minSignalScore then None
        else
          CompositeWithoutVolume(edge, momentumPct, tick.volume24h);
          var direction := if momentumPct > 0.0 then "UP" else "DOWN";
          Some(DivergenceSignal(tick.symbol, tick.price, momentumPct, odds.midpoint, implied, edge, score,
            direction, odds.conditionId, odds.tokenId))
  }

  /** `DivergenceDetector._evaluate`: momentum comes from the feed's window for the tick's symbol. */
  function Evaluate(h: History, paired: PairedData, minEdgePct: real, minSignalScore: real): Option<DivergenceSignal> {
    EvaluateWith(GetMomentum(h, paired.tick.symbol), paired, minEdgePct, minSignalScore)
  }

  /** Negligible momentum is dropped whatever the odds and whatever the thresholds. */
  lemma {:induction false} SmallMomentumDropped(h: History, paired: PairedData, minEdgePct: real, minSignalScore: real)
    requires Abs(GetMomentum(h, paired.tick.symbol)) < MinMomentumPct
    ensures Evaluate(h, paired, minEdgePct, minSignalScore).None?
  {
  }

  /** A symbol with fewer than two prices in its window has zero momentum, so it is always dropped. */
  lemma {:induction false} ShortWindowDropped(h: History, paired: PairedData, minEdgePct: real, minSignalScore: real)
    requires |WindowOf(h, paired.tick.symbol)| < 2
    ensures Evaluate(h, paired, minEdgePct, minSignalScore).None?
  {
  }

  /**
   * Because the detector leaves out volume, its score never exceeds 0.8,
   * so a score threshold above 0.8 silences the detector entirely.
   */
  lemma {:induction false} ThresholdAboveCeilingSilences(momentumPct: real, paired: PairedData, minEdgePct: real, minSignalScore: real)
    requires minSignalScore > 0.8
    ensures EvaluateWith(momentumPct, paired, minEdgePct, minSignalScore).None?
  {
    CompositeWithoutVolume(EdgePct(paired.odds.midpoint, momentumPct), momentumPct, paired.tick.volume24h);
  }

  /**
   * When the market odds lie within [0.01, 0.99], the edge points the same
   * way as the momentum, so an "UP" signal never carries a negative edge.
   */
  lemma {:induction false} EdgeFollowsMomentum(midpoint: real, momentumPct: real)
    requires 0.01 <= midpoint <= 0.99
    ensures momentumPct > 0.0 ==> EdgePct(midpoint, momentumPct) >= 0.0
    ensures momentumPct < 0.0 ==> EdgePct(midpoint, momentumPct) <= 0.0
    ensures Abs(EdgePct(midpoint, momentumPct)) <= 3.0 * Abs(momentumPct)
  {
  }

  /**
   * The edge never exceeds three times the momentum, so with the
   * default 2-point edge threshold a signal needs at least 2/3 percent of
   * momentum.
   */
  lemma {:induction false} DefaultEdgeNeedsMomentum(midpoint: real, momentumPct: real)
    requires 0.01 <= midpoint <= 0.99
    requires Abs(EdgePct(midpoint, momentumPct)) >= MinEdgePct
    ensures 3.0 * Abs(momentumPct) >= MinEdgePct
  {
    EdgeFollowsMomentum(midpoint, momentumPct);
  }
}
