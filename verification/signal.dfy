/**
 * Composite signal scoring (strategy/signal.py): three saturating
 * sub-scores in [0, 1] combined with weights that sum to one, rounded to
 * four decimals.
 */
module Signal {
  import opened Common
  import opened Thresholds

  /** Edge sub-score: linear in |edge| up to 10 points, then saturated. */
  function ScoreEdge(edgePct: real): (r: real)
    ensures 0.0 <= r <= 1.0
    ensures Abs(edgePct) <= 10.0 ==> r * 10.0 == Abs(edgePct)
    ensures Abs(edgePct) >= 10.0 ==> r == 1.0
  {
    Min(Abs(edgePct) / 10.0, 1.0)
  }

  /** Momentum sub-score: linear in |momentum| up to 5 percent, then saturated. */
  function ScoreMomentum(momentumPct: real): (r: real)
    ensures 0.0 <= r <= 1.0
    ensures Abs(momentumPct) <= 5.0 ==> r * 5.0 == Abs(momentumPct)
    ensures Abs(momentumPct) >= 5.0 ==> r == 1.0
  {
    Min(Abs(momentumPct) / 5.0, 1.0)
  }

  /**
   * Volume sub-score: nothing without a positive average or below a 1.5x
   * spike, then linear until 5x, then saturated.
   */
  function ScoreVolume(volume24h: real, avgVolume: real): (r: real)
    ensures 0.0 <= r <= 1.0
    ensures avgVolume <= 0.0 ==> r == 0.0
  {
    if avgVolume <= 0.0 then 0.0
    else
      var ratio := volume24h / avgVolume;
      if ratio < VolumeSpikeThreshold then 0.0
      else Min((ratio - VolumeSpikeThreshold) / 3.5, 1.0)
  }

  /**
   * The volume bands stated without division: below 1.5x the average the
   * factor is zero, from 5x it is one, and in between it grows linearly.
   */
  lemma {:induction false} ScoreVolumeBands(volume24h: real, avgVolume: real)
    requires avgVolume > 0.0
    ensures volume24h < VolumeSpikeThreshold * avgVolume ==> ScoreVolume(volume24h, avgVolume) == 0.0
    ensures volume24h >= 5.0 * avgVolume ==> ScoreVolume(volume24h, avgVolume) == 1.0
    ensures VolumeSpikeThreshold * avgVolume <= volume24h <= 5.0 * avgVolume ==>
      ScoreVolume(volume24h, avgVolume) * 3.5 * avgVolume == volume24h - VolumeSpikeThreshold * avgVolume
  {
    var ratio := volume24h / avgVolume;
    assert ratio * avgVolume == volume24h;
    assert volume24h < 1.5 * avgVolume <==> ratio < 1.5 by {
      if ratio < 1.5 { assert ratio * avgVolume < 1.5 * avgVolume; }
      if ratio >= 1.5 { assert ratio * avgVolume >= 1.5 * avgVolume; }
    }
    assert volume24h >= 5.0 * avgVolume <==> ratio >= 5.0 by {
      if ratio < 5.0 { assert ratio * avgVolume < 5.0 * avgVolume; }
      if ratio >= 5.0 { assert ratio * avgVolume >= 5.0 * avgVolume; }
    }
    if 1.5 <= ratio <= 5.0 {
      assert ScoreVolume(volume24h, avgVolume) == (ratio - 1.5) / 3.5;
      assert (ratio - 1.5) * avgVolume == volume24h - 1.5 * avgVolume;
    }
  }

  /** The weighted sum before rounding. */
  function WeightedSum(edgePct: real, momentumPct: real, volume24h: real, avgVolume: real): real {
    ScoreEdge(edgePct) * WeightEdge + ScoreMomentum(momentumPct) * WeightMomentum
      + ScoreVolume(volume24h, avgVolume) * WeightVolume
  }

  /** `composite_score`: the weighted sum rounded to four decimals. */
  function CompositeScore(edgePct: real, momentumPct: real, volume24h: real, avgVolume: real): (r: real)
    ensures 0.0 <= r <= 1.0
  {
    var s := WeightedSum(edgePct, momentumPct, volume24h, avgVolume);
    Round4Within(s, 0, 10000);
    Round4(s)
  }

  /** Both signed directions of the same size score alike. */
  lemma {:induction false} ScoresSymmetric(x: real)
    ensures ScoreEdge(-x) == ScoreEdge(x)
    ensures ScoreMomentum(-x) == ScoreMomentum(x)
  {
  }

  /** A larger move never scores lower. */
  lemma {:induction false} ScoresMonotone(x: real, y: real)
    requires Abs(x) <= Abs(y)
    ensures ScoreEdge(x) <= ScoreEdge(y)
    ensures ScoreMomentum(x) <= ScoreMomentum(y)
  {
  }

  /** Without a volume average the volume weight is lost, so the score never exceeds 0.8. */
  lemma {:induction false} CompositeWithoutVolume(edgePct: real, momentumPct: real, volume24h: real)
    ensures CompositeScore(edgePct, momentumPct, volume24h, 0.0) <= 0.8
  {
    var s := WeightedSum(edgePct, momentumPct, volume24h, 0.0);
    assert s <= 0.8;
    Round4Within(s, 0, 8000);
  }

  /** The two worked examples: every factor saturated gives 1.0; half edge and half momentum give 0.4. */
  lemma {:induction false} CompositeExamples()
    ensures CompositeScore(10.0, 5.0, 500.0, 100.0) == 1.0
    ensures CompositeScore(5.0, 2.5, 0.0, 0.0) == 0.4
  {
    assert WeightedSum(10.0, 5.0, 500.0, 100.0) == 1.0;
    assert RoundHalfEven(10000.0) == 10000;
    assert WeightedSum(5.0, 2.5, 0.0, 0.0) == 0.4;
    assert RoundHalfEven(4000.0) == 4000;
  }
}
