/**
 * The sentiment stage of the council (council/sentiment_agent.py):
 * reading a BULLISH/BEARISH/NEUTRAL label and a reasoning line out of
 * the model's reply, with NEUTRAL as the fail-safe.
 */
module SentimentAgent {
  import opened Common
  import opened Text
  import opened Schemas
  import opened Ollama
  import opened Extraction

  /** The label of the last sentiment capture, upper-cased; NEUTRAL when there is none or it names no label. */
  function LabelOf(captures: seq<string>): (s: Sentiment)
    ensures captures == [] ==> s == Neutral
    ensures captures != [] && SentimentOf(Upper(captures[|captures| - 1])).Some? ==>
      s.Value() == Upper(captures[|captures| - 1])
  {
    match LastOf(captures)
    case None => Neutral
    case Some(raw) => SentimentOf(Upper(raw)).GetOr(Neutral)
  }

  /** `SentimentAgent._parse`. */
  function Parse(find: Finder, model: string, response: string, thinking: string, merged: string, latencyMs: real): (r: SentimentResult)
    ensures r.model == model && r.latencyMs == latencyMs
    ensures Matches(find, SentimentPattern, response, merged) == [] ==> r.sentiment == Neutral
    ensures |r.reasoning| <= 500
  {
    SentimentResult(
      LabelOf(Matches(find, SentimentPattern, response, merged)),
      Reasoning(find, ReasoningLinePattern, response, merged),
      model, latencyMs)
  }

  /**
   * `SentimentAgent.analyze` after the chat call: any exception on the way
   * gives NEUTRAL with the exception's message after "Error: ".
   */
  function Analyze(find: Finder, model: string, outcome: ChatOutcome, latencyMs: real): (r: SentimentResult)
    ensures r.model == model && r.latencyMs == latencyMs
    ensures outcome.Raised? ==> r.sentiment == Neutral && r.reasoning == "Error: " + outcome.error
  {
    match StageTexts(outcome)
    case Failed(e) => SentimentResult(Neutral, "Error: " + e, model, latencyMs)
    case Parsed(x) => Parse(find, model, x.response, x.thinking, x.merged, latencyMs)
  }

  /** A finder that behaves like the compiled pattern: every sentiment capture is one of the labels in some letter case. */
  ghost predicate LabelCaptures(find: Finder) {
    forall text, c :: c in find(SentimentPattern, text) ==> SentimentOf(Upper(c)).Some?
  }

  /**
   * With such a finder the result is exactly the upper-cased last capture
   * whenever there is one, so "bullish" reads as BULLISH; NEUTRAL stands
   * only for an explicit NEUTRAL or for no label at all.
   */
  lemma {:induction false} LastLabelWins(find: Finder, model: string, response: string, thinking: string, merged: string, latencyMs: real)
    requires LabelCaptures(find)
    ensures var ms := Matches(find, SentimentPattern, response, merged);
      ms != [] ==> Parse(find, model, response, thinking, merged, latencyMs).sentiment.Value() == Upper(ms[|ms| - 1])
  {
    var ms := Matches(find, SentimentPattern, response, merged);
    if ms != [] {
      var c := ms[|ms| - 1];
      if response != "" && find(SentimentPattern, response) != [] {
        assert c in find(SentimentPattern, response);
      } else {
        assert c in find(SentimentPattern, merged);
      }
    }
  }

  /** Lower-case labels are read as their upper-case form. */
  lemma {:induction false} LowerCaseLabel()
    ensures LabelOf(["bearish", "bullish"]) == Bullish
  {
    assert Upper("bullish") == "BULLISH";
  }

  /**
   * A label in the answer channel decides the sentiment, whatever the
   * merged text (and so the thinking) says.
   */
  lemma {:induction false} ResponseLabelPreferred(find: Finder, model: string, response: string, thinking: string, merged1: string, merged2: string, latencyMs: real)
    requires response != "" && find(SentimentPattern, response) != []
    ensures Parse(find, model, response, thinking, merged1, latencyMs).sentiment
         == Parse(find, model, response, thinking, merged2, latencyMs).sentiment
  {
  }
}
