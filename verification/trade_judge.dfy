/**
 * The final stage of the council (council/trade_judge.py): a TRADE/SKIP
 * decision and a position size read out of the model's reply, with SKIP
 * and size 0 as the fail-safe.
 */
module TradeJudge {
  import opened Common
  import opened Text
  import opened Decimal
  import opened Schemas
  import opened Ollama
  import opened Extraction

  /** The judge's default `max_position_size`. */
  const DefaultMaxPositionSize: real := 50.0
  /** The floor every parsed size is raised to. */
  const MinTradeSize: real := 5.0

  /** The action named by the last decision capture, upper-cased; SKIP when there is none or it names no action. */
  function ActionOf(captures: seq<string>): (r: TradeAction)
    ensures captures == [] ==> r == Skip
    ensures r == Trade <==> captures != [] && Upper(captures[|captures| - 1]) == "TRADE"
  {
    match LastOf(captures)
    case None => Skip
    case Some(raw) => TradeActionOf(Upper(raw)).GetOr(Skip)
  }

  /**
   * The action and size the judge settles on from the decided action and
   * the size captures. A size is read only for TRADE; it is raised to at
   * least 5 and capped at the maximum before the "size <= 0" check, so that
   * check only fires when no size was captured.
   */
  function Settle(action: TradeAction, sizes: seq<string>, maxPositionSize: real): (r: (TradeAction, real))
    ensures r.0 == Trade <==> r.1 > 0.0
    ensures r.0 == Skip ==> r.1 == 0.0
    ensures r.0 == Trade ==> MinTradeSize <= r.1 <= Max(MinTradeSize, maxPositionSize)
    ensures r.0 == Trade <==> action == Trade && sizes != [] && ParseFloat(sizes[|sizes| - 1]).Some?
  {
    var sized: (TradeAction, real) :=
      if action == Trade && sizes != [] then
        match ParseFloat(sizes[|sizes| - 1])
        case Some(v) => (Trade, Max(MinTradeSize, Min(v, maxPositionSize)))
        case None => (Skip, 0.0)
      else (action, 0.0);
    var final := if sized.0 == Trade && sized.1 <= 0.0 then Skip else sized.0;
    (final, sized.1)
  }

  /**
   * `TradeJudge._parse`: the decision and the size each fall back to the
   * merged text on their own, then `Settle` fixes action and size.
   */
  function Parse(find: Finder, model: string, maxPositionSize: real,
                 response: string, thinking: string, merged: string, latencyMs: real): (r: TradeVerdict)
    ensures r.model == model && r.latencyMs == latencyMs
    ensures r.action == Trade <==> r.sizeUsd > 0.0
    ensures r.action == Trade ==> MinTradeSize <= r.sizeUsd <= Max(MinTradeSize, maxPositionSize)
    ensures |r.reasoning| <= 500
  {
    var settled := Settle(ActionOf(Matches(find, DecisionPattern, response, merged)),
                          Matches(find, SizePattern, response, merged), maxPositionSize);
    TradeVerdict(settled.0, settled.1, Reasoning(find, ReasoningRestPattern, response, merged), model, latencyMs)
  }

  /**
   * No DECISION anywhere (neither in a non-empty answer nor in the merged
   * text) leaves the fail-safe: SKIP with size 0.
   */
  lemma {:induction false} NoDecisionSkips(find: Finder, model: string, maxPositionSize: real,
                                           response: string, thinking: string, merged: string, latencyMs: real)
    requires response == "" || find(DecisionPattern, response) == []
    requires find(DecisionPattern, merged) == []
    ensures Parse(find, model, maxPositionSize, response, thinking, merged, latencyMs).action == Skip
    ensures Parse(find, model, maxPositionSize, response, thinking, merged, latencyMs).sizeUsd == 0.0
  {
  }

  /**
   * The judge trades exactly when the last DECISION capture of the
   * preferred text (`ds`: the non-empty answer's when it has any, else the
   * merged text's) upper-cases to "TRADE" and the last SIZE capture of the
   * preferred text (`ss`) is a number.
   */
  lemma {:induction false} TradeFollowsLastCaptures(find: Finder, model: string, maxPositionSize: real,
                                                    response: string, thinking: string, merged: string, latencyMs: real,
                                                    ds: seq<string>, ss: seq<string>)
    requires ds == if response != "" && find(DecisionPattern, response) != [] then find(DecisionPattern, response)
                   else find(DecisionPattern, merged)
    requires ss == if response != "" && find(SizePattern, response) != [] then find(SizePattern, response)
                   else find(SizePattern, merged)
    ensures Parse(find, model, maxPositionSize, response, thinking, merged, latencyMs).action == Trade
        <==> ds != [] && Upper(ds[|ds| - 1]) == "TRADE" && ss != [] && ParseFloat(ss[|ss| - 1]).Some?
  {
    var settled := Settle(ActionOf(ds), ss, maxPositionSize);
    assert Parse(find, model, maxPositionSize, response, thinking, merged, latencyMs).action == settled.0;
  }

  /** A TRADE verdict carries the last SIZE capture of the preferred text, clamped to [5, max]. */
  lemma {:induction false} TradeSizeFromLastCapture(find: Finder, model: string, maxPositionSize: real,
                                                    response: string, thinking: string, merged: string, latencyMs: real,
                                                    ss: seq<string>)
    requires ss == if response != "" && find(SizePattern, response) != [] then find(SizePattern, response)
                   else find(SizePattern, merged)
    ensures Parse(find, model, maxPositionSize, response, thinking, merged, latencyMs).action == Trade ==>
      ss != [] && ParseFloat(ss[|ss| - 1]).Some? &&
      Parse(find, model, maxPositionSize, response, thinking, merged, latencyMs).sizeUsd
        == Max(MinTradeSize, Min(ParseFloat(ss[|ss| - 1]).value, maxPositionSize))
  {
    var ds := Matches(find, DecisionPattern, response, merged);
    var settled := Settle(ActionOf(ds), ss, maxPositionSize);
    assert Parse(find, model, maxPositionSize, response, thinking, merged, latencyMs).action == settled.0;
    assert Parse(find, model, maxPositionSize, response, thinking, merged, latencyMs).sizeUsd == settled.1;
    if settled.0 == Trade {
      TradeSizeClamped(ss, maxPositionSize);
    }
  }

  /** `TradeJudge.judge` after the chat call: any exception gives SKIP, size 0 and the message after "Error: ". */
  function Judge(find: Finder, model: string, maxPositionSize: real, outcome: ChatOutcome, latencyMs: real): (r: TradeVerdict)
    ensures r.model == model && r.latencyMs == latencyMs
    ensures r.action == Trade <==> r.sizeUsd > 0.0
    ensures r.action == Trade ==> MinTradeSize <= r.sizeUsd <= Max(MinTradeSize, maxPositionSize)
    ensures outcome.Raised? ==> r.action == Skip && r.sizeUsd == 0.0 && r.reasoning == "Error: " + outcome.error
  {
    match StageTexts(outcome)
    case Failed(e) => TradeVerdict(Skip, 0.0, "Error: " + e, model, latencyMs)
    case Parsed(x) => Parse(find, model, maxPositionSize, x.response, x.thinking, x.merged, latencyMs)
  }

  /** A TRADE decision with a parseable size gets that size clamped to [5, max]. */
  lemma {:induction false} TradeSizeClamped(sizes: seq<string>, maxPositionSize: real)
    requires sizes != [] && ParseFloat(sizes[|sizes| - 1]).Some?
    ensures Settle(Trade, sizes, maxPositionSize)
         == (Trade, Max(MinTradeSize, Min(ParseFloat(sizes[|sizes| - 1]).value, maxPositionSize)))
  {
  }

  /** An unparseable size capture turns TRADE into SKIP with size 0. */
  lemma {:induction false} BadSizeSkips(sizes: seq<string>, maxPositionSize: real)
    requires sizes != [] && ParseFloat(sizes[|sizes| - 1]).None?
    ensures Settle(Trade, sizes, maxPositionSize) == (Skip, 0.0)
  {
  }

  /** "500" against the default maximum of 50 trades 50. */
  lemma {:induction false} OversizeCapped()
    ensures Settle(Trade, ["500"], DefaultMaxPositionSize) == (Trade, 50.0)
  {
    ParseNatToString(500);
    assert NatToString(500) == "500" by {
      assert NatToString(5) == "5";
      assert NatToString(50) == "50";
    }
  }

  /** A parsed "0" trades the 5-dollar floor: the clamp runs before the "size <= 0" check. */
  lemma {:induction false} ZeroSizeRaisedToFloor()
    ensures Settle(Trade, ["0"], DefaultMaxPositionSize) == (Trade, 5.0)
  {
    ParseNatToString(0);
  }

  /** TRADE with no size captured anywhere is turned into SKIP with size 0. */
  lemma {:induction false} TradeWithoutSizeSkips(action: TradeAction, maxPositionSize: real)
    ensures Settle(action, [], maxPositionSize) == (Skip, 0.0)
  {
  }

  /**
   * Each field falls back on its own: the decision may come from the
   * answer while the size comes from the merged text.
   */
  lemma {:induction false} FieldsFallBackIndependently(find: Finder, model: string, maxPositionSize: real,
                                                       response: string, thinking: string, merged: string, latencyMs: real)
    requires response != "" && find(DecisionPattern, response) != [] && find(SizePattern, response) == []
    ensures Matches(find, DecisionPattern, response, merged) == find(DecisionPattern, response)
    ensures Matches(find, SizePattern, response, merged) == find(SizePattern, merged)
  {
  }
}
