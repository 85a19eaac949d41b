/** Tunable constants of the strategy layer (strategy/thresholds.py). */
module Thresholds {
  /** Default minimum edge, in percentage points, between implied and market odds. */
  const MinEdgePct: real := 2.0
  /** Default minimum composite score passed on to the council. */
  const MinSignalScore: real := 0.6
  /** Momentum, in percent, below which a tick is ignored. */
  const MinMomentumPct: real := 0.3

  const WeightEdge: real := 0.5
  const WeightMomentum: real := 0.3
  const WeightVolume: real := 0.2

  /** Volume relative to its average at which the volume factor starts to count. */
  const VolumeSpikeThreshold: real := 1.5
}
