/**
 * The council orchestrator (council/orchestrator.py): sentiment, then
 * confidence, then — only when confidence reaches the threshold — the
 * trade judge. The three stages are parameters, so the model speaks about
 * the control flow and the data handed between stages.
 */
module Orchestrator {
  import opened Common
  import opened Decimal
  import opened Schemas

  /** The stage functions, each standing for one model call. */
  type Analyzer = DivergenceSignal -> SentimentResult
  type Grader = (DivergenceSignal, SentimentResult) -> ConfidenceGrade
  type Judge = (DivergenceSignal, SentimentResult, ConfidenceGrade, real) -> TradeVerdict

  /** One inference call made by the orchestrator. */
  datatype Call = SentimentCall | GradeCall | JudgeCall

  /** The threshold as a number and as Python prints it (`str(min_confidence)`, e.g. "0.6"). */
  datatype Threshold = Threshold(minConfidence: real, text: string)

  /** The orchestrator's default `min_confidence`. */
  const DefaultThreshold: Threshold := Threshold(0.6, "0.6")

  /** A decision together with the calls made to reach it, in order. */
  datatype Evaluation = Evaluation(decision: CouncilDecision, calls: seq<Call>)

  /** The reasoning of a short-circuited verdict: the confidence to two places and the threshold. */
  function ShortCircuitReason(confidence: real, threshold: Threshold): string {
    "Short-circuit: confidence " + Fixed2(confidence) + " < " + threshold.text
  }

  /**
   * `CouncilOrchestrator.evaluate`. `totalLatencyMs` is the elapsed time
   * the clock would report.
   */
  function Evaluate(analyze: Analyzer, grade: Grader, judge: Judge, threshold: Threshold,
                    signal: DivergenceSignal, availableCapital: real, totalLatencyMs: real): (r: Evaluation)
    ensures r.decision.signal == signal
    ensures r.decision.sentiment == analyze(signal)
    ensures r.decision.confidence == grade(signal, analyze(signal))
    ensures |r.calls| >= 2 && r.calls[..2] == [SentimentCall, GradeCall]
    ensures |r.calls| == 2 <==> grade(signal, analyze(signal)).confidence < threshold.minConfidence
    ensures |r.calls| == 3 <==> grade(signal, analyze(signal)).confidence >= threshold.minConfidence
    ensures |r.calls| == 3 ==> r.calls[2] == JudgeCall && r.decision.verdict == judge(signal, analyze(signal), grade(signal, analyze(signal)), availableCapital)
    ensures |r.calls| == 2 ==> r.decision.verdict.action == Skip && r.decision.verdict.sizeUsd == 0.0
  {
    var sentiment := analyze(signal);
    var confidence := grade(signal, sentiment);
    if confidence.confidence < threshold.minConfidence then
      var verdict := TradeVerdict(Skip, 0.0, ShortCircuitReason(confidence.confidence, threshold), "short-circuit", 0.0);
      Evaluation(CouncilDecision(signal, sentiment, confidence, verdict, totalLatencyMs), [SentimentCall, GradeCall])
    else
      var verdict := judge(signal, sentiment, confidence, availableCapital);
      Evaluation(CouncilDecision(signal, sentiment, confidence, verdict, totalLatencyMs), [SentimentCall, GradeCall, JudgeCall])
  }

  /** Sentiment and grading each run exactly once, before any judging. */
  lemma {:induction false} StagesRunOnceInOrder(analyze: Analyzer, grade: Grader, judge: Judge, threshold: Threshold,
                                                signal: DivergenceSignal, availableCapital: real, totalLatencyMs: real)
    ensures var calls := Evaluate(analyze, grade, judge, threshold, signal, availableCapital, totalLatencyMs).calls;
      && multiset(calls)[SentimentCall] == 1 && multiset(calls)[GradeCall] == 1
      && multiset(calls)[JudgeCall] <= 1
      && calls[0] == SentimentCall && calls[1] == GradeCall
  {
  }

  /**
   * The short-circuit verdict: SKIP, size 0, the marker model
   * "short-circuit", zero latency, and a reasoning from which the
   * confidence can be read back to the cent.
   */
  lemma {:induction false} ShortCircuitVerdict(analyze: Analyzer, grade: Grader, judge: Judge, threshold: Threshold,
                                               signal: DivergenceSignal, availableCapital: real, totalLatencyMs: real)
    requires grade(signal, analyze(signal)).confidence < threshold.minConfidence
    ensures var v := Evaluate(analyze, grade, judge, threshold, signal, availableCapital, totalLatencyMs).decision.verdict;
      var c := grade(signal, analyze(signal)).confidence;
      && v == TradeVerdict(Skip, 0.0, ShortCircuitReason(c, threshold), "short-circuit", 0.0)
      && ParseFloat(Fixed2(c)) == Some(RoundHalfEven(c * 100.0) as real / 100.0)
  {
    ParseFixed2(grade(signal, analyze(signal)).confidence);
  }

  /** At exactly the threshold the judge is consulted. */
  lemma {:induction false} ThresholdIsInclusive(analyze: Analyzer, grade: Grader, judge: Judge, threshold: Threshold,
                                                signal: DivergenceSignal, availableCapital: real, totalLatencyMs: real)
    requires grade(signal, analyze(signal)).confidence == threshold.minConfidence
    ensures Evaluate(analyze, grade, judge, threshold, signal, availableCapital, totalLatencyMs).calls == [SentimentCall, GradeCall, JudgeCall]
  {
  }

  /**
   * Every decision keeps the judge's invariant whenever the judge keeps it:
   * a positive size exactly for TRADE.
   */
  lemma {:induction false} DecisionSizeInvariant(analyze: Analyzer, grade: Grader, judge: Judge, threshold: Threshold,
                                                 signal: DivergenceSignal, availableCapital: real, totalLatencyMs: real)
    requires var s := analyze(signal); var c := grade(signal, s);
      var v := judge(signal, s, c, availableCapital);
      v.action == Trade <==> v.sizeUsd > 0.0
    ensures var v := Evaluate(analyze, grade, judge, threshold, signal, availableCapital, totalLatencyMs).decision.verdict;
      v.action == Trade <==> v.sizeUsd > 0.0
  {
  }
}
