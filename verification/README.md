# polymarket-agent decision core in Dafny

This project models the decision pipeline of a paper/live trading agent for
Polymarket's short-horizon crypto markets and proves properties of it.
The pipeline has these stages:

1. Binance price ticks feed a rolling momentum window.
2. Ticks are paired with cached Polymarket odds.
3. A divergence detector gates each pair on momentum, edge and composite score.
4. A three-stage LLM council decides:
   - a sentiment stage;
   - a confidence stage, which may short-circuit;
   - a trade judge.
5. A risk gate checks the decision.
6. A paper or live executor writes the trade.
7. A per-symbol cooldown then blocks further signals.

A simulation layer generates synthetic markets whose strike is written into
the question text and parsed back out.

Every stage is an immutable datatype plus pure functions. Stateful parts are
explicit state-transition functions over event sequences:

- the price window;
- the odds cache;
- the open-trade list;
- the cooldown map.

Everything the program obtains from outside is a parameter:

- the network;
- the language model;
- the regular-expression engine;
- the clock;
- random noise;
- uuids.

One module per source file:

| module | file | what it holds |
|---|---|---|
| `Signal`, `Thresholds` | strategy/signal.py, strategy/thresholds.py | saturating sub-scores and the weighted composite score |
| `Divergence` | strategy/divergence_detector.py | implied fair odds and the three-gate evaluation |
| `Momentum` | feeds/binance_ws.py | the bounded per-symbol price window, momentum, latest price, the tick handler |
| `Aggregator` | feeds/feed_aggregator.py | market index, last-write-wins odds cache, tick/odds pairing, interleaved runs |
| `Discovery` | feeds/gamma_discovery.py | keyword symbol matching and order-preserving de-duplication |
| `Simulation` | feeds/simulation.py | strike offsets, market ids and questions, the strike parser, lag buffers, simulated odds |
| `Ollama` | shared/ollama_client.py | merging the answer and thinking channels; the shape of a chat reply |
| `Extraction` | council/*.py | the shared field-extraction discipline and `<think>` removal |
| `SentimentAgent`, `ConfidenceGrader`, `TradeJudge` | council/sentiment_agent.py, council/confidence_grader.py, council/trade_judge.py | parsing each stage's reply, with its fail-safe |
| `Orchestrator` | council/orchestrator.py | the two-or-three call state machine |
| `PositionTracker` | execution/position_tracker.py | the ordered risk checks and available capital |
| `PaperTrader`, `OrderManager` | execution/paper_trader.py, execution/order_manager.py | paper and live execution as transitions on the database |
| `Ledger` | storage/db.py | the database reduced to its trade and signal tables |
| `Agent` | agent.py | the cooldown gate and update of the council loop |
| `Config`, `Schemas` | shared/config.py, shared/schemas.py | the symbol list, the live flag, the enumerations and records |
| `Common`, `Text`, `Decimal` | — | Python built-ins the core relies on |

The `Common`, `Text` and `Decimal` modules cover:

- `round`, `int()` and `deque(maxlen)`;
- `strip`, `lower`/`upper`, `split`/`join`, `find` and `replace`;
- `float()`, `str(n)` and the `.2f` / `,.2f` formats.

The central proved properties are these:

- **Risk limits are invariant.** Any run of paper executions, live executions
  or agent-loop steps that starts within the risk limits stays within them:
  - the open count is at most the maximum;
  - the exposure is at most the capital.
- **Trade size and action agree.** The trade judge's size is positive exactly
  for TRADE, and a traded size is at least 5.
- **The council calls the judge only when needed.** It makes exactly two calls
  below the confidence threshold and three from the threshold up.
- **The odds cache is last-write-wins.** Pairing emits exactly one pair per
  market with cached odds.
- **The momentum window keeps the newest prices.** It holds exactly the newest
  20 prices.
- **Simulated strikes round-trip.** Every simulated market's question parses
  back to its two-decimal strike.
- **The symbol setting round-trips.** Clean symbols joined with commas parse
  back to exactly those symbols.

Three behaviours of the code that a reader may not expect:

- In live mode the agent loop still hands TRADE decisions to the paper trader
  (agent.py:190-193). `OrderManager` is modelled on its own.
- The detector calls the composite score without an average volume, so an
  emitted score never exceeds 0.8. A score threshold above 0.8 therefore
  silences the detector.
- The judge clamps a parsed size up to 5 before its "size <= 0" check, so a
  parsed "0" trades 5 dollars.

## Model

| member | source | states |
|---|---|---|
| Signal.ScoreEdge | strategy/signal.py:10-12 | the edge factor lies in [0, 1], is one tenth of the absolute edge up to 10 points and saturates at 1 from there |
| Signal.ScoreMomentum | strategy/signal.py:15-17 | the momentum factor lies in [0, 1], is one fifth of the absolute momentum up to 5 percent and saturates at 1 from there |
| Signal.ScoreVolume | strategy/signal.py:20-28 | the volume factor lies in [0, 1] and is 0 whenever the average volume is not positive |
| Signal.ScoreVolumeBands | strategy/signal.py:24-28 | with a positive average: 0 below a 1.5x spike, 1 from 5x, and in between linear, stated as `score * 3.5 * avg == volume - 1.5 * avg` |
| Signal.CompositeScore | strategy/signal.py:31-41 | the weighted, four-decimal rounded score lies in [0, 1] because the weights 0.5, 0.3 and 0.2 sum to one |
| Signal.ScoresSymmetric | strategy/signal.py:10-17 | a move and its negation get the same edge factor and the same momentum factor |
| Signal.ScoresMonotone | strategy/signal.py:10-17 | a larger absolute move never gets a lower edge or momentum factor |
| Signal.CompositeWithoutVolume | strategy/signal.py:31-41 | called without an average volume, as the detector does, the score never exceeds 0.8 |
| Signal.CompositeExamples | strategy/signal.py:31-41 | every factor saturated (10, 5, 500, 100) scores 1.0; half edge and half momentum (5, 2.5) score 0.4 |
| Divergence.ImpliedOdds | strategy/divergence_detector.py:15-29 | the implied odds lie in [0.01, 0.99] and equal the odds plus 0.03 per percent of momentum whenever that sum lies in the range |
| Divergence.ImpliedOddsMonotone | strategy/divergence_detector.py:26-29 | stronger momentum never implies lower odds |
| Divergence.ImpliedOddsExample | strategy/divergence_detector.py:26-29 | even odds with a 2 percent move imply 0.56 |
| Divergence.EvaluateWith | strategy/divergence_detector.py:76-122 | a signal is emitted exactly when the momentum, edge and score gates all pass; it copies symbol and price from the tick and midpoint, condition and token from the odds, says "UP" exactly for positive momentum, and carries an edge and score that meet the thresholds, with the score at most 0.8 |
| Divergence.SmallMomentumDropped | strategy/divergence_detector.py:82-86 | momentum below the fixed 0.3 percent floor is dropped, whatever the thresholds passed in |
| Divergence.ShortWindowDropped | strategy/divergence_detector.py:82-86 | a symbol with fewer than two prices in its window never yields a signal |
| Divergence.ThresholdAboveCeilingSilences | strategy/divergence_detector.py:98-107 | a score threshold above 0.8 silences the detector for every input |
| Divergence.EdgeFollowsMomentum | strategy/divergence_detector.py:88-96 | for market odds in [0.01, 0.99] the edge has the sign of the momentum and is at most three times its size |
| Divergence.DefaultEdgeNeedsMomentum | strategy/divergence_detector.py:92-96 | passing the default 2-point edge gate needs at least 2/3 percent of momentum |
| Momentum.NewHistory | feeds/binance_ws.py:21-26 | the constructor creates an empty window for the lower-cased form of every configured symbol and for nothing else |
| Momentum.WindowMomentum | feeds/binance_ws.py:100-106 | momentum is zero with fewer than two prices or a zero oldest price, and otherwise satisfies `m * oldest == (newest - oldest) * 100` |
| Momentum.CalcMomentum | feeds/binance_ws.py:29-37 | the lookup fails exactly for a symbol with no window; otherwise the result is zero for a short window or a zero oldest price, and else satisfies `m * oldest == (current - oldest) * 100` |
| Momentum.GetMomentum | feeds/binance_ws.py:96-106 | an unknown symbol has zero momentum |
| Momentum.OnTicker | feeds/binance_ws.py:66-79 | a message is processed exactly when its lower-cased symbol has a window; every window stays within 20 prices, the set of symbols is unchanged and the emitted tick carries the lower-cased symbol and the message's values |
| Momentum.OnTickerWindow | feeds/binance_ws.py:71 | the new price is appended; a full window loses only its oldest price; every other symbol's window is untouched |
| Momentum.LatestAfterTick | feeds/binance_ws.py:71-112 | right after a tick, the latest price for that symbol, asked in any case, is the tick's price |
| Momentum.CalcAgreesWithGet | feeds/binance_ws.py:71-106 | the momentum computed in the stream loop equals what `get_momentum` reports right afterwards |
| Momentum.LookupIgnoresCase | feeds/binance_ws.py:96-112 | momentum and latest-price lookups give the same answer for a symbol and its lower-case form |
| Momentum.MomentumOverLastWindow | feeds/binance_ws.py:14-106 | after at least 20 prices the window is exactly the newest 20, so momentum compares the newest price with the one 19 ticks earlier |
| Aggregator.BuildIndexGroups | feeds/feed_aggregator.py:37-39 | a symbol is indexed exactly when some market carries it, and its list holds that symbol's markets in input order |
| Aggregator.OnOdds | feeds/feed_aggregator.py:56 | the new snapshot replaces the cached one under its token id; no other entry changes and the key set gains only that token |
| Aggregator.OnOddsConsistent | feeds/feed_aggregator.py:56 | storing a snapshot keeps every cached snapshot under its own token id |
| Aggregator.PairAll | feeds/feed_aggregator.py:72-78 | at most one pair per market, each carrying the tick unchanged, and none when no market has cached odds |
| Aggregator.PairAllExact | feeds/feed_aggregator.py:72-78 | exactly one pair per market with cached odds, in market order, holding that market's current snapshot |
| Aggregator.OnTick | feeds/feed_aggregator.py:70-78 | a tick whose symbol has no markets emits nothing, and no tick emits more pairs than its symbol has markets |
| Aggregator.RunLastWriteWins | feeds/feed_aggregator.py:49-58 | after any interleaving of arrivals, a token's cached entry is the newest snapshot that arrived for it, or its initial entry when none did; ticks never touch the cache |
| Aggregator.RunOddsOnlyEmitsNothing | feeds/feed_aggregator.py:49-78 | a run of odds arrivals alone emits no pair |
| Aggregator.RunConsistent | feeds/feed_aggregator.py:56 | any run from a consistent cache leaves every snapshot under its own token id |
| Discovery.MatchFrom | feeds/gamma_discovery.py:35-38 | the search fails exactly when no entry from the start index has a keyword in the text; otherwise it returns the first such entry's symbol |
| Discovery.MatchSymbol | feeds/gamma_discovery.py:32-38 | no symbol exactly when no keyword of any asset occurs in the lower-cased question; otherwise the symbol of the first asset, in table order, with a keyword that occurs |
| Discovery.MatchSymbolIgnoresCase | feeds/gamma_discovery.py:34 | a question and its lower-case form map to the same symbol |
| Discovery.MatchSymbolBitcoinFirst | feeds/gamma_discovery.py:25-38 | a question starting with "bitcoin" maps to btcusdt whatever follows, because BTC is tried first |
| Discovery.MatchSymbolSubstring | feeds/gamma_discovery.py:36 | keywords match as substrings, so "whether" maps to ethusdt |
| Discovery.Dedup | feeds/gamma_discovery.py:106-114 | the loop keeps exactly the markets chosen by walking the list and keeping each market whose (condition id, token id) key is new |
| Discovery.DedupDistinct | feeds/gamma_discovery.py:106-114 | the kept markets have pairwise distinct keys |
| Discovery.DedupKeys | feeds/gamma_discovery.py:106-114 | every key of the input is kept: the kept keys are exactly the input's keys |
| Discovery.DedupKeepsFirst | feeds/gamma_discovery.py:109-113 | each kept market is the first input market with its key |
| Discovery.DedupOrder | feeds/gamma_discovery.py:109-113 | de-duplication only deletes, so the kept markets appear in input order |
| Simulation.KnownDefaultPrice | feeds/simulation.py:21-26 | the fallback prices are 87000, 2400 and 140 for the three tracked symbols, and there is none for any other symbol |
| Simulation.DefaultPrice | feeds/simulation.py:49-51 | market generation always has a positive price for a symbol, 1000 for an unknown one |
| Simulation.Offsets | feeds/simulation.py:53-62 | any positive count gives that many offsets; a non-positive count falls to the last branch and gives three |
| Simulation.OffsetAt | feeds/simulation.py:58-62 | for any count other than 1 and 2, the offset at position k is `(k - 1)` spreads |
| Simulation.OffsetHeadAt | feeds/simulation.py:59 | the first three offsets are minus one, zero and one spread |
| Simulation.OffsetTailAt | feeds/simulation.py:61-62 | each extra level `j` is `(j - 1)` spreads |
| Simulation.OffsetsIncreasing | feeds/simulation.py:53-62 | with a positive spread the offsets strictly increase, so one symbol's strikes are distinct |
| Simulation.MarketsAt | feeds/simulation.py:64-77 | a symbol gets one market per offset |
| Simulation.GenerateMarkets | feeds/simulation.py:36-88 | the list holds one market per symbol and offset |
| Simulation.StrikeFromQuestion | feeds/simulation.py:91-101 | a question without "$" has no strike |
| Simulation.EmptyTokenNoStrike | feeds/simulation.py:97-101 | a "$" followed directly by a space leaves an empty token, which is not a number, so there is no strike |
| Simulation.AmountSeparators | feeds/simulation.py:67 | the formatted amount contains neither "$" nor a space |
| Simulation.QuestionHeadNoDollar | feeds/simulation.py:67 | the text before the dollar sign has no "$" when the ticker has none |
| Simulation.QuestionShape | feeds/simulation.py:67 | the question is the head, "$", the amount, a space and "in 15 min?" |
| Simulation.StrikeRoundTrip | feeds/simulation.py:65-101 | for a ticker without "$", parsing a formatted question gives back its strike in cents exactly, for any amount and sign |
| Simulation.TickerKeepsNoDollar | feeds/simulation.py:66 | a symbol without "$" gives a ticker without "$" |
| Simulation.GeneratedStrike | feeds/simulation.py:64-101 | every generated market's question parses back to the two-decimal strike it was built from |
| Simulation.TrailingDigitsAfterDash | feeds/simulation.py:71-72 | the digits after the last dash of an id are exactly the index digits |
| Simulation.SimIdInjective | feeds/simulation.py:71-72 | equal condition ids (or token ids) mean the same symbol and the same index |
| Simulation.LagBufferLen | feeds/simulation.py:124-129 | the length is absent exactly for a zero interval, where the division raises; otherwise it is 2 whenever the lag is less than two intervals (a lag shorter than one interval included, through the `max(1, ...)`), and at least 3 from two intervals on |
| Simulation.LagBufferSpansLag | feeds/simulation.py:124-129 | for a lag of at least one interval, a full buffer of that length spans the lag: `(n - 1) * interval <= lag < n * interval` |
| Simulation.LagBufferExample | feeds/simulation.py:125-129 | a 5-second lag at 1-second ticks gives a buffer of 6 prices |
| Simulation.NewBuffers | feeds/simulation.py:126-129 | one empty buffer for each distinct market symbol and no other |
| Simulation.RecordPrices | feeds/simulation.py:143-150 | recording keeps the same symbols and every buffer within its length |
| Simulation.LaggedPrice | feeds/simulation.py:150-162 | once a buffer has received at least its length in prices, it is full and its first entry is the price received that many appends before the end |
| Simulation.SimOdds | feeds/simulation.py:165-168 | the odds lie in [0.05, 0.95] and equal `0.5 + 10 * distance + noise` whenever that lies in the range |
| Simulation.SimOddsMonotone | feeds/simulation.py:165-168 | with a positive strike, a higher lagged price never gives lower odds |
| Simulation.SimOddsSide | feeds/simulation.py:165-168 | without noise, a lagged price below the strike gives odds below 0.5, above it odds above 0.5, and at it exactly 0.5 |
| Simulation.SnapshotOf | feeds/simulation.py:152-178 | an emitted snapshot has its midpoint in [0.05, 0.95] and the market's ids, symbol and question; the feed crashes exactly when the strike parses to zero and the buffer has a price |
| Simulation.OddsRound | feeds/simulation.py:152-180 | one round emits at most one snapshot per market, each with midpoint in [0.05, 0.95] |
| Simulation.GeneratedMarketIds | feeds/simulation.py:69-76 | the market at position i has condition id "sim-{symbol}-{i}", token id "sim-tok-{symbol}-{i}", outcome "Yes" and its symbol |
| Simulation.GeneratedMarketStrike | feeds/simulation.py:64-101 | the question of the market at position i parses back to the price moved by the i-th offset and rounded to the cent |
| Ollama.MergeFields | shared/ollama_client.py:11-28 | the merged text is empty exactly when both stripped channels are; with no thinking it is the stripped answer and with no answer the stripped thinking (a missing field counts as empty) |
| Ollama.MergeBothShape | shared/ollama_client.py:26-28 | with both channels present, the merged text is the tagged thinking, a newline and the stripped answer, so it ends with the answer |
| Ollama.MergeIsStripped | shared/ollama_client.py:22-28 | the merged text never has surrounding whitespace |
| Ollama.StageTexts | council/sentiment_agent.py:36-50 | a stage reaches its fail-safe exactly when the chat raised or a reply field is null (its own `.strip()` raises); a raised exception's message is passed on unchanged |
| Extraction.RemoveThink | council/sentiment_agent.py:90 | removing thinking blocks never lengthens the text |
| Extraction.RemoveThinkNoTag | council/sentiment_agent.py:90 | removing thinking blocks leaves a text without an opening tag unchanged |
| Extraction.Reasoning | council/sentiment_agent.py:86-91 | the reasoning is at most 500 characters, and at most 200 when there is no reasoning capture |
| Extraction.ReasoningFromResponse | council/sentiment_agent.py:70-88 | a non-empty answer with a reasoning capture supplies the reasoning: its last capture, stripped and cut to 500 characters |
| Extraction.ReasoningFromMerged | council/sentiment_agent.py:75-88 | without one in the answer, the last reasoning capture of the merged text, stripped and cut to 500 characters |
| Extraction.ReasoningFallback | council/sentiment_agent.py:75-91 | only when neither text has a capture, the merged text with its thinking removed, stripped and cut to 200 characters |
| Extraction.FindMergedClose | shared/ollama_client.py:28 | in a two-channel merged text whose thinking has no closing tag, the first closing tag is the one the merge added |
| Extraction.RemoveThinkLeadingBlock | council/sentiment_agent.py:90 | a block opened at the start and closed by the first closing tag is removed completely |
| Extraction.NewlineAddsNoTag | shared/ollama_client.py:28 | putting a newline in front of a text adds no opening tag |
| Extraction.RemoveThinkOfMerged | council/sentiment_agent.py:89-91 | for a two-channel reply whose thinking has no closing tag and whose answer has no opening tag, the reasoning fallback sees exactly the stripped answer |
| SentimentAgent.LabelOf | council/sentiment_agent.py:78-84 | no capture gives NEUTRAL; a last capture that names a label, in any letter case, gives that label |
| SentimentAgent.Parse | council/sentiment_agent.py:60-98 | without a sentiment capture the result is NEUTRAL; the reasoning is at most 500 characters; model and latency are passed through |
| SentimentAgent.Analyze | council/sentiment_agent.py:50-58 | an exception during the call gives NEUTRAL with "Error: " and the message as reasoning |
| SentimentAgent.LastLabelWins | council/sentiment_agent.py:73-84 | when every capture names a label, the result is exactly the upper-cased last capture; NEUTRAL stands only for an explicit NEUTRAL or no capture |
| SentimentAgent.LowerCaseLabel | council/sentiment_agent.py:80-82 | captures "bearish" then "bullish" give BULLISH |
| SentimentAgent.ResponseLabelPreferred | council/sentiment_agent.py:69-74 | a label in the answer decides the sentiment, whatever the merged text says |
| ConfidenceGrader.ConfidenceOf | council/confidence_grader.py:86-91 | no capture or a capture that is not a number gives 0.0; a number is clamped to [0, 1] and kept as it is inside that range |
| ConfidenceGrader.Parse | council/confidence_grader.py:68-105 | without a confidence capture the confidence is 0.0; the reasoning is at most 500 characters; model and latency are passed through (which capture sets the value: ConfidenceGrader.LastCaptureSetsConfidence) |
| ConfidenceGrader.Grade | council/confidence_grader.py:58-66 | an exception during the call gives confidence 0.0 with "Error: " and the message as reasoning |
| ConfidenceGrader.OverConfidenceCapped | council/confidence_grader.py:89 | "1.5" is capped at 1.0 |
| ConfidenceGrader.InRangeKept | council/confidence_grader.py:89 | "0.85" is kept as 0.85 |
| ConfidenceGrader.TrailingDotRejected | council/confidence_grader.py:88-91 | "0.85.", which the digits-and-dots pattern can capture, is not a number, so the confidence stays 0.0 |
| ConfidenceGrader.ResponseNumberPreferred | council/confidence_grader.py:77-82 | a number in the answer decides the confidence, whatever the merged text says |
| ConfidenceGrader.LastCaptureSetsConfidence | council/confidence_grader.py:77-91 | the last capture of the preferred text (the non-empty answer when it has one, else the merged text) sets the confidence clamped to [0, 1]; a last capture that is not a number, or no capture at all, leaves 0.0 |
| TradeJudge.ActionOf | council/trade_judge.py:107-115 | TRADE exactly when there is a decision capture and the last one upper-cases to "TRADE"; SKIP when there is none |
| TradeJudge.Settle | council/trade_judge.py:107-127 | the action is TRADE exactly when the size is positive, and exactly when the decision is TRADE and the last size capture is a number; a traded size lies between 5 and the larger of 5 and the maximum; SKIP carries size 0 |
| TradeJudge.Parse | council/trade_judge.py:86-142 | TRADE exactly when the size is positive, a traded size lies in [5, max(5, maximum)], the reasoning is at most 500 characters, and model and latency are passed through (how the captures decide: TradeJudge.NoDecisionSkips, TradeJudge.TradeFollowsLastCaptures, TradeJudge.TradeSizeFromLastCapture) |
| TradeJudge.Judge | council/trade_judge.py:61-84 | an exception during the call gives SKIP, size 0 and "Error: " with the message; otherwise the verdict keeps the guarantees of the parse |
| TradeJudge.TradeSizeClamped | council/trade_judge.py:117-121 | a TRADE decision with a numeric last size trades that size clamped to [5, maximum] |
| TradeJudge.BadSizeSkips | council/trade_judge.py:122-124 | a last size capture that is not a number turns TRADE into SKIP with size 0 |
| TradeJudge.OversizeCapped | council/trade_judge.py:119-121 | "500" against the default maximum of 50 trades 50 |
| TradeJudge.ZeroSizeRaisedToFloor | council/trade_judge.py:121-127 | a parsed "0" trades 5 dollars, because the clamp runs before the "size <= 0" check |
| TradeJudge.TradeWithoutSizeSkips | council/trade_judge.py:126-127 | TRADE with no size captured becomes SKIP with size 0 |
| TradeJudge.FieldsFallBackIndependently | council/trade_judge.py:95-105 | the decision may come from the answer while the size comes from the merged text |
| TradeJudge.NoDecisionSkips | council/trade_judge.py:95-108 | with no DECISION capture in a non-empty answer nor in the merged text, the verdict is SKIP with size 0 |
| TradeJudge.TradeFollowsLastCaptures | council/trade_judge.py:95-127 | the verdict is TRADE exactly when the last DECISION capture of the preferred text upper-cases to "TRADE" and the last SIZE capture of the preferred text is a number |
| TradeJudge.TradeSizeFromLastCapture | council/trade_judge.py:101-121 | a TRADE verdict carries the last SIZE capture of the preferred text clamped to [5, maximum] |
| Orchestrator.Evaluate | council/orchestrator.py:39-111 | sentiment then grading always run, in that order, on the signal; the judge runs exactly when confidence reaches the threshold and then its verdict is the decision's; below the threshold the verdict is SKIP with size 0 |
| Orchestrator.StagesRunOnceInOrder | council/orchestrator.py:47-94 | sentiment and grading each run exactly once, before the judge, and the judge runs at most once |
| Orchestrator.ShortCircuitVerdict | council/orchestrator.py:69-88 | the short-circuit verdict is SKIP, size 0, model "short-circuit", zero latency, and its reasoning prints the confidence to two places such that it reads back as the confidence rounded to the cent |
| Orchestrator.ThresholdIsInclusive | council/orchestrator.py:70 | a confidence exactly at the threshold consults the judge |
| Orchestrator.DecisionSizeInvariant | council/orchestrator.py:76-110 | if the judge trades exactly the positive sizes, so does every council decision |
| PositionTracker.OpenSizes | execution/position_tracker.py:38 | one size per open trade |
| PositionTracker.OpenCount | execution/position_tracker.py:53-56 | the open count never exceeds the number of trades logged |
| PositionTracker.OpenCountExtremes | execution/position_tracker.py:53-56 | the count equals the number of logged trades when all are open, and is zero when all are closed |
| PositionTracker.CanTrade | execution/position_tracker.py:25-45 | each refusal holds exactly when its check is the first to fail (count at the limit, then size over the maximum, then exposure over the capital), and the trade is allowed exactly when all three pass, equality included |
| PositionTracker.AvailableCapital | execution/position_tracker.py:47-51 | available capital is never negative, adds up with the exposure to the capital while the exposure fits, and is zero once the exposure reaches the capital |
| PositionTracker.AllowedFitsAvailable | execution/position_tracker.py:39-51 | an allowed size always fits in the available capital |
| PositionTracker.OpenOneMore | execution/position_tracker.py:38-56 | logging an open trade raises the open count by one and the exposure by its size |
| PositionTracker.AdmitKeepsLimits | execution/position_tracker.py:25-45 | logging an allowed open trade leaves at most the maximum number of open positions and an exposure within capital, from any starting state |
| PaperTrader.RecordOf | execution/paper_trader.py:63-77 | the logged record is open and carries the order id, side, entry price, paper flag, verdict size and symbol, with the reasoning cut to its first 500 characters |
| PaperTrader.Execute | execution/paper_trader.py:26-105 | an order is placed exactly for a TRADE verdict that the risk gate allows; without an order the database is unchanged |
| PaperTrader.ExecuteFill | execution/paper_trader.py:43-103 | a paper fill is filled, paper, at the signal's midpoint, for the verdict's size, on the side the direction picks, with the signal's ids and symbol; exactly one open record and one "TRADE" signal entry are appended |
| PaperTrader.PaperOrderId | execution/paper_trader.py:45 | the order id is "paper-" followed by at most twelve characters |
| PaperTrader.ExecuteKeepsLimits | execution/paper_trader.py:34-78 | an execution never takes the open count over its maximum or the exposure over the capital |
| PaperTrader.ExecuteAll | execution/paper_trader.py:26-105 | a run of executions logs at most one trade per decision |
| PaperTrader.ExecuteAllKeepsLimits | execution/paper_trader.py:34-78 | any run of executions from a state within the limits stays within them |
| OrderManager.LiveExecute | execution/order_manager.py:33-119 | an order is posted exactly for a TRADE verdict the risk gate allows with a positive quoted midpoint; an order results exactly when the venue replies to the post; without an order the database is unchanged, and the signals table is never written |
| OrderManager.PostedAtMidpoint | execution/order_manager.py:51-69 | a posted order is for the signal's token at the positive midpoint, its shares times the price equal the verdict's dollars, and its side is BUY exactly for direction "UP" |
| OrderManager.LiveFill | execution/order_manager.py:71-105 | a live result is filled and not paper, at the midpoint and for the verdict's size, takes the venue's order id when it gave one, and appends exactly one open record of itself |
| OrderManager.LiveExecuteKeepsLimits | execution/order_manager.py:41-48 | live execution never takes the open count over its maximum or the exposure over the capital |
| Ledger.LogTrade | storage/db.py:34-55 | the record is appended after every earlier trade, and the signals are untouched |
| Ledger.LogSignal | storage/db.py:105-121 | the entry is appended after every earlier signal, and the trades are untouched |
| Ledger.OpenTrades | storage/db.py:67-74 | only open trades are listed, never more than were logged |
| Ledger.OpenTradesAppend | storage/db.py:67-74 | logging an open trade adds exactly that trade to the open trades; logging a closed one adds nothing |
| Agent.Step | agent.py:151-195 | the council runs exactly when the clock is not before the symbol's cooldown end, and then with the capital still available; a dropped signal changes nothing; an order only follows a TRADE decision; the symbol's cooldown is set to now plus the cooldown period exactly when an order is returned, and no other cooldown changes |
| Agent.NeverTradedNotBlocked | agent.py:164-166 | a symbol without a cooldown entry is never dropped on a non-negative clock reading |
| Agent.SkipChangesNothing | agent.py:173-195 | a SKIP decision writes no trade and leaves the cooldowns alone; only the signal is logged, with action SKIP |
| Agent.OtherSymbolsUnchanged | agent.py:194-195 | a step leaves the cooldown of every other symbol exactly as it was |
| Agent.TradeStartsCooldown | agent.py:164-171 | after a filled order every later signal for that symbol is dropped until the cooldown period has elapsed |
| Agent.StepKeepsLimits | agent.py:186-193 | a step of the loop never takes the open count over its maximum or the exposure over the capital |
| Agent.Run | agent.py:155-195 | running the loop over arrivals never removes a trade |
| Agent.RunKeepsLimits | agent.py:155-195 | whatever the arrivals and the council's decisions, a loop that starts within the risk limits stays within them |
| Config.DefaultIsPaper | shared/config.py:8 | the default trading mode "paper" is not live; only the exact text "live" is |
| Config.SymbolTextStripped | shared/config.py:55 | a symbol that is non-empty and has no surrounding whitespace is unchanged by stripping |
| Config.DropEmpty | shared/config.py:55 | the filter never lengthens the list |
| Config.DropEmptyKeeps | shared/config.py:55 | every kept text is one of the inputs, and none is empty |
| Config.DropEmptyOrdered | shared/config.py:55 | the kept texts follow input order |
| Config.DropEmptyComplete | shared/config.py:55 | no non-empty text is dropped |
| Config.DropEmptyNone | shared/config.py:55 | a list with no empty text passes through unchanged |
| Config.SymbolsList | shared/config.py:53-55 | every element is non-empty, has no surrounding whitespace and contains no comma |
| Config.StrippedPiecesClean | shared/config.py:55 | every non-empty stripped piece of a comma split is a clean symbol text without commas |
| Config.StrippedNoComma | shared/config.py:55 | stripping a piece without commas leaves none |
| Config.SymbolsListOrdered | shared/config.py:53-55 | the elements appear in the order of the pieces they come from |
| Config.SymbolsListComplete | shared/config.py:53-55 | every piece that is not blank shows up, stripped |
| Config.SymbolsListRoundTrip | shared/config.py:53-55 | symbols joined with commas, each padded with any whitespace, parse back to exactly those symbols, as in "btcusdt, ethusdt, solusdt" |
| Schemas.SentimentOf | shared/schemas.py:44-47 | a text names a sentiment exactly when it is one of the three values, and then the member's value is that text |
| Schemas.SentimentRoundTrip | shared/schemas.py:44-47 | looking up a sentiment's value gives back that sentiment |
| Schemas.TradeActionOf | shared/schemas.py:66-68 | a text names an action exactly when it is "TRADE" or "SKIP", and then the member's value is that text |
| Schemas.TradeActionRoundTrip | shared/schemas.py:66-68 | looking up an action's value gives back that action |
| Schemas.OrderSideOf | shared/schemas.py:90-92 | a text names a side exactly when it is "BUY" or "SELL", and then the member's value is that text |
| Schemas.OrderSideRoundTrip | shared/schemas.py:90-92 | looking up a side's value gives back that side |
| Common.Clamp | council/confidence_grader.py:89 | `max(lo, min(hi, x))` lies in [lo, hi] when lo <= hi, is x when x is already inside, and is the nearer end otherwise |
| Common.RoundHalfEven | strategy/signal.py:41 | `round` gives an integer within one half of x, and the even one when x lies exactly halfway |
| Common.RoundHalfEvenWithin | strategy/signal.py:41 | rounding never leaves an interval whose ends are integers |
| Common.Round4Within | feeds/simulation.py:176 | `round(x, 4)` stays inside any interval whose ends have at most four decimals |
| Common.TruncToInt | feeds/simulation.py:125 | `int(x)` truncates toward zero: for x >= 0 the greatest integer not above x, for x < 0 the least integer not below x |
| Common.PushBoundedShape | feeds/binance_ws.py:24-25 | a `deque(maxlen)` append adds the value at the right end, and at capacity evicts exactly the oldest value |
| Common.PushAllKeepsNewest | feeds/binance_ws.py:24-25 | after any run of appends the deque holds exactly the newest `maxlen` values ever appended, in order |
| Common.Take | execution/paper_trader.py:76 | `s[:n]` is the prefix of s of length min(n, len(s)) |
| Text.Strip | shared/ollama_client.py:22-23 | `strip` returns a contiguous piece of the text with only whitespace cut away on either side, and the piece neither starts nor ends with whitespace |
| Text.StripIdempotent | shared/ollama_client.py:22-23 | stripping twice is stripping once |
| Text.StripLeadingSpace | shared/ollama_client.py:22-23 | a leading whitespace character never survives a strip |
| Text.LowerHasNoCapitals | feeds/binance_ws.py:98 | after `lower` no ASCII capital is left, and every character that is not one is kept in place |
| Text.LowerIdempotent | feeds/binance_ws.py:98 | lower-casing twice is lower-casing once |
| Text.UpperHasNoSmall | council/sentiment_agent.py:80 | after `upper` no ASCII small letter is left, and every character that is not one is kept in place |
| Text.Find | council/sentiment_agent.py:90 | the search returns the first occurrence of the needle at or after the start, and None exactly when there is none |
| Text.FindFirstAt | council/sentiment_agent.py:90 | an occurrence with none before it between the start and itself is the one found |
| Text.JoinSplit | shared/config.py:55 | `split(sep)` loses nothing: joining the pieces with the separator gives the text back |
| Text.SplitJoin | shared/config.py:55 | joining pieces free of the separator and splitting again gives the pieces back |
| Text.SplitOnce | feeds/simulation.py:97 | text with exactly one separator splits into exactly its two sides |
| Text.RemoveCharRemoves | feeds/simulation.py:98 | `replace(",", "")` leaves no comma behind |
| Text.RemoveCharAbsent | feeds/simulation.py:98 | removing a character the text does not contain leaves the text unchanged |
| Text.RemoveCharAppend | feeds/simulation.py:98 | removing a character from a concatenation removes it from each part |
| Text.ReplaceAll | feeds/simulation.py:66 | `replace` introduces no character found in neither the text nor the replacement, and leaves text without the pattern unchanged |
| Decimal.NatToString | feeds/simulation.py:71-72 | `str(n)` is a digit string denoting n without leading zeros |
| Decimal.ParseFloat | council/confidence_grader.py:89 | `float` accepts a text only when it is non-empty, and an unsigned text gives a non-negative value |
| Decimal.ParseNatToString | feeds/simulation.py:71-72 | `float(str(n)) == n` |
| Decimal.ParseFixed2 | council/orchestrator.py:83 | reading back `f"{x:.2f}"` gives x rounded half-to-even to cents |
| Decimal.UngroupDigits | feeds/simulation.py:67 | thousands grouping only inserts commas: removing them gives the digits back |
| Decimal.ParseGroupedCents | feeds/simulation.py:67-99 | removing the commas from `f"{x:,.2f}"` and parsing gives back exactly the amount in cents |
| Decimal.GroupedCentsChars | feeds/simulation.py:67 | the grouped amount holds only digits, commas, the dot and a minus sign, hence no space and no dollar sign |

## Left out

- Network and transport are not modelled: the Binance websocket loop, the Polymarket odds poller, the Gamma HTTP loop and the Ollama HTTP client. Their results enter as parameters (a tick, a snapshot, a chat reply or an exception message).
- execution/polymarket_client.py wraps a third-party client that is not part of this model; the venue's midpoint and its reply to a posted order are oracle inputs of `OrderManager.LiveExecute`.
- Concurrency is not modelled. This covers asyncio queues, `wait_for` timeouts, shutdown flags and task cancellation. The two aggregator consumers and the council loop are sequential steps over one sequence of arrivals, so the race between `can_trade` and `log_trade` in concurrent execution is not expressible.
- The clock, uuids, latency measurement and the simulator's `random.uniform` noise are parameters. The Gaussian random walk of `SimulatedPriceFeed` is not modelled; the latest price it would report is a parameter of market generation.
- Floating point is replaced by exact reals. `round(x, n)` is round-half-to-even on the exact value, and `f"{x:.2f}"` renders the exact value rounded that way. Binary representation error, infinities and NaN are not modelled.
- `float(s)` accepts only plain decimal notation: an optional sign, digits, at most one dot and at least one digit. Exponents, "inf"/"nan", underscores and surrounding whitespace are treated as not numbers.
- `lower`/`upper` change only ASCII letters. `strip` uses Python's full whitespace set.
- The regular-expression engine is abstract. A `Finder` returns the captures `findall` would return; only the `<think>` removal by `re.sub` is modelled concretely.
- The risk gate's reason strings (with their `{:.0f}` formatting) are a tagged `Gate` value naming the failing check.
- Database: SQL, row ids, timestamps, `close_trade`, `get_recent_trades`, `get_pnl_summary` and the DESC ordering of `get_open_trades` are not modelled. The trade list is kept in insertion order, and only membership and count matter to the risk gate.
- Reading configuration from the environment is not modelled; the defaults enter as constants or parameters.
- Logging, the dashboard (dashboard/main.py), storage/models.py, shared/logging.py and the prompt templates (council/prompts.py) are not part of this model.
- A ZeroDivisionError is an explicit outcome: `None` for the lag-buffer length with a zero interval, `Crashed` for a simulated snapshot whose strike parses to zero.
- A KeyError is an explicit outcome too: `Momentum.OnTicker` returns `None` for a ticker whose lower-cased symbol was not subscribed (feeds/binance_ws.py:66-71). Nothing inside `BinanceFeed.start` catches that exception, so in the source the Binance stream ends there; the model only marks the failing tick and does not model the feed task stopping.
- Simulation.GenerateMarkets: its contract states only the number of markets; the ids and strikes of each market are stated per symbol by Simulation.GeneratedMarketIds and Simulation.GeneratedMarketStrike.
- Simulation.MarketsAt: its contract states only the number of markets, for the same reason.
- Simulation.StrikeFromQuestion: its contract states only the missing-"$" case; the parsing is stated by Simulation.EmptyTokenNoStrike, Simulation.StrikeRoundTrip and Simulation.GeneratedStrike.
- Simulation.RecordPrices: states only that buffers stay bounded and keyed by the same symbols; what a full buffer holds is stated by Simulation.LaggedPrice.
- Simulation.OddsRound: states only bounds and the number of snapshots; each snapshot is described by Simulation.SnapshotOf.
- Extraction.RemoveThink: its own contract states only that the text does not grow; what is removed is stated by Extraction.RemoveThinkNoTag, Extraction.RemoveThinkLeadingBlock and Extraction.RemoveThinkOfMerged.
- Extraction.Reasoning: states the length bounds; the choice between capture and fallback is stated by Extraction.ReasoningFromResponse, Extraction.ReasoningFromMerged and Extraction.ReasoningFallback.
- ConfidenceGrader.Parse: its own contract states only the no-capture default; the value taken from the last capture of the preferred text is stated by ConfidenceGrader.LastCaptureSetsConfidence.
- TradeJudge.Parse: its own contract states the size/action invariant; the no-DECISION default and the choice by the last DECISION and SIZE captures are stated by TradeJudge.NoDecisionSkips, TradeJudge.TradeFollowsLastCaptures and TradeJudge.TradeSizeFromLastCapture.
- Ledger.OpenTrades: states that only open trades are listed and never more than were logged; its exact contents under logging are stated by Ledger.OpenTradesAppend.
- PositionTracker.OpenCount: states the bound by the number of logged trades; its value is pinned by PositionTracker.OpenCountExtremes, and its change under logging by PositionTracker.OpenOneMore and Ledger.OpenTradesAppend.
- PositionTracker.OpenSizes: states only the count of sizes; the exposure it feeds is stated by PositionTracker.OpenOneMore.
- PaperTrader.ExecuteAll: states only that at most one trade is logged per decision; the limits are stated by PaperTrader.ExecuteAllKeepsLimits.
- Agent.Run: states only that trades are never removed; the limits are stated by Agent.RunKeepsLimits.
- Momentum.GetMomentum: states only the unknown-symbol case; the value is stated by Momentum.WindowMomentum and Momentum.CalcAgreesWithGet.
- Config.DropEmpty: states only that the list does not grow; the filter is stated by Config.DropEmptyKeeps, Config.DropEmptyOrdered and Config.DropEmptyComplete.
- Decimal.Fixed2: renders a value that rounds to zero cents as "0.00" even when it is negative, where Python prints "-0.00"; its only use prints a confidence, which is never negative.
- Decimal.ParseFloat: the function's own contract is weak; what it accepts is stated by the round-trip lemmas Decimal.ParseNatToString, Decimal.ParseFixed2 and Decimal.ParseGroupedCents and by the examples in ConfidenceGrader.
- Text.ReplaceAll: states only the characters of the result and the no-occurrence case. It is used only to remove "usdt" from a symbol.
