/**
 * The confidence stage of the council (council/confidence_grader.py):
 * reading a number in [0, 1] out of the model's reply, with 0.0 (which
 * makes the orchestrator skip) as the fail-safe.
 */
module ConfidenceGrader {
  import opened Common
  import opened Text
  import opened Decimal
  import opened Schemas
  import opened Ollama
  import opened Extraction

  /**
   * The confidence a last capture yields: `float` of it clamped to [0, 1],
   * and 0.0 when there is no capture or it is not a number.
   */
  function ConfidenceOf(capture: Option<string>): (c: Probability)
    ensures capture.None? || ParseFloat(capture.value).None? ==> c == 0.0
    ensures capture.Some? && ParseFloat(capture.value).Some? ==>
      var v := ParseFloat(capture.value).value;
      (0.0 <= v <= 1.0 ==> c == v) && (v > 1.0 ==> c == 1.0) && (v < 0.0 ==> c == 0.0)
  {
    match capture
    case None => 0.0
    case Some(text) =>
      match ParseFloat(text)
      case None => 0.0
      case Some(v) => Clamp(v, 0.0, 1.0)
  }

  /** `ConfidenceGrader._parse`. */
  function Parse(find: Finder, model: string, response: string, thinking: string, merged: string, latencyMs: real): (r: ConfidenceGrade)
    ensures r.model == model && r.latencyMs == latencyMs
    ensures Matches(find, ConfidencePattern, response, merged) == [] ==> r.confidence == 0.0
    ensures |r.reasoning| <= 500
  {
    ConfidenceGrade(
      ConfidenceOf(LastOf(Matches(find, ConfidencePattern, response, merged))),
      Reasoning(find, ReasoningLinePattern, response, merged),
      model, latencyMs)
  }

  /** `ConfidenceGrader.grade` after the chat call: any exception gives confidence 0.0 and the message after "Error: ". */
  function Grade(find: Finder, model: string, outcome: ChatOutcome, latencyMs: real): (r: ConfidenceGrade)
    ensures r.model == model && r.latencyMs == latencyMs
    ensures outcome.Raised? ==> r.confidence == 0.0 && r.reasoning == "Error: " + outcome.error
  {
    match StageTexts(outcome)
    case Failed(e) => ConfidenceGrade(0.0, "Error: " + e, model, latencyMs)
    case Parsed(x) => Parse(find, model, x.response, x.thinking, x.merged, latencyMs)
  }

  /**
   * The last number captured in the preferred text (the non-empty answer
   * when it has one, else the merged text) sets the confidence, clamped to
   * [0, 1]; a capture that is not a number, or no capture, leaves 0.0.
   */
  lemma {:induction false} LastCaptureSetsConfidence(find: Finder, model: string, response: string, thinking: string,
                                                     merged: string, latencyMs: real, cs: seq<string>)
    requires cs == if response != "" && find(ConfidencePattern, response) != [] then find(ConfidencePattern, response)
                   else find(ConfidencePattern, merged)
    ensures cs != [] && ParseFloat(cs[|cs| - 1]).Some? ==>
      Parse(find, model, response, thinking, merged, latencyMs).confidence == Clamp(ParseFloat(cs[|cs| - 1]).value, 0.0, 1.0)
    ensures cs != [] && ParseFloat(cs[|cs| - 1]).None? ==> Parse(find, model, response, thinking, merged, latencyMs).confidence == 0.0
    ensures cs == [] ==> Parse(find, model, response, thinking, merged, latencyMs).confidence == 0.0
  {
    var c := Parse(find, model, response, thinking, merged, latencyMs).confidence;
    assert c == ConfidenceOf(LastOf(cs));
    if cs != [] {
      assert LastOf(cs) == Some(cs[|cs| - 1]);
      match ParseFloat(cs[|cs| - 1])
      case None =>
      case Some(v) => assert c == Clamp(v, 0.0, 1.0);
    }
  }

  /** An over-confident 1.5 is capped at 1.0. */
  lemma {:induction false} OverConfidenceCapped()
    ensures ConfidenceOf(Some("1.5")) == 1.0
  {
    ParseUnsignedDot("1", "5");
    assert "1" + "." + "5" == "1.5";
    ParseFloatUnsigned("1.5");
  }

  /** A well-formed 0.85 is kept as it is. */
  lemma {:induction false} InRangeKept()
    ensures ConfidenceOf(Some("0.85")) == 0.85
  {
    ParseUnsignedCents(85, "0", "85");
    assert "0" + ("." + "85") == "0.85";
    ParseFloatUnsigned("0.85");
  }

  /**
   * A trailing dot ("0.85.", which the digits-and-dots pattern can
   * capture) is not a number, so confidence stays at the fail-safe 0.0.
   */
  lemma {:induction false} TrailingDotRejected()
    ensures ConfidenceOf(Some("0.85.")) == 0.0
  {
    SplitAt("85", "", '.');
    assert "85" + ['.'] + "" == "85.";
    SplitAt("0", "85.", '.');
    assert "0" + ['.'] + "85." == "0.85.";
    assert |Split("0.85.", '.')| == 3;
    ParseFloatUnsigned("0.85.");
  }

  /** A response-channel number decides, whatever the merged text says. */
  lemma {:induction false} ResponseNumberPreferred(find: Finder, model: string, response: string, thinking: string, merged1: string, merged2: string, latencyMs: real)
    requires response != "" && find(ConfidencePattern, response) != []
    ensures Parse(find, model, response, thinking, merged1, latencyMs).confidence
         == Parse(find, model, response, thinking, merged2, latencyMs).confidence
  {
  }
}
