/**
 * The records and enumerations that flow through the pipeline
 * (shared/schemas.py). Timestamps are left out; the string-valued
 * enumerations carry their wire text through `Value`.
 */
module Schemas {
  import opened Common

  /** A real number in [0, 1]: the range pydantic enforces on a confidence. */
  type Probability = r: real | 0.0 <= r <= 1.0

  datatype PriceTick = PriceTick(symbol: string, price: real, volume24h: real, priceChangePct: real)

  datatype OddsSnapshot = OddsSnapshot(
    conditionId: string,
    tokenId: string,
    symbol: string,
    question: string,
    outcome: string,
    midpoint: real,
    spread: real)

  /** Output of the divergence detector; `direction` is the text "UP" or "DOWN". */
  datatype DivergenceSignal = DivergenceSignal(
    symbol: string,
    price: real,
    momentumPct: real,
    oddsMidpoint: real,
    impliedFairOdds: real,
    edgePct: real,
    signalScore: real,
    direction: string,
    conditionId: string,
    tokenId: string)

  datatype Sentiment = Bullish | Bearish | Neutral {
    function Value(): string {
      match this
      case Bullish => "BULLISH"
      case Bearish => "BEARISH"
      case Neutral => "NEUTRAL"
    }
  }

  /** `Sentiment(raw)`: the member whose value is exactly `raw`, or `None` where Python raises ValueError. */
  function SentimentOf(raw: string): (r: Option<Sentiment>)
    ensures r.Some? <==> raw == "BULLISH" || raw == "BEARISH" || raw == "NEUTRAL"
    ensures r.Some? ==> r.value.Value() == raw
  {
    if raw == "BULLISH" then Some(Bullish)
    else if raw == "BEARISH" then Some(Bearish)
    else if raw == "NEUTRAL" then Some(Neutral)
    else None
  }

  lemma {:induction false} SentimentRoundTrip(s: Sentiment)
    ensures SentimentOf(s.Value()) == Some(s)
  {
  }

  datatype TradeAction = Trade | Skip {
    function Value(): string {
      match this
      case Trade => "TRADE"
      case Skip => "SKIP"
    }
  }

  /** `TradeAction(raw)`. */
  function TradeActionOf(raw: string): (r: Option<TradeAction>)
    ensures r.Some? <==> raw == "TRADE" || raw == "SKIP"
    ensures r.Some? ==> r.value.Value() == raw
  {
    if raw == "TRADE" then Some(Trade)
    else if raw == "SKIP" then Some(Skip)
    else None
  }

  lemma {:induction false} TradeActionRoundTrip(a: TradeAction)
    ensures TradeActionOf(a.Value()) == Some(a)
  {
  }

  datatype OrderSide = Buy | Sell {
    function Value(): string {
      match this
      case Buy => "BUY"
      case Sell => "SELL"
    }
  }

  /** `OrderSide(raw)`. */
  function OrderSideOf(raw: string): (r: Option<OrderSide>)
    ensures r.Some? <==> raw == "BUY" || raw == "SELL"
    ensures r.Some? ==> r.value.Value() == raw
  {
    if raw == "BUY" then Some(Buy)
    else if raw == "SELL" then Some(Sell)
    else None
  }

  lemma {:induction false} OrderSideRoundTrip(s: OrderSide)
    ensures OrderSideOf(s.Value()) == Some(s)
  {
  }

  datatype SentimentResult = SentimentResult(sentiment: Sentiment, reasoning: string, model: string, latencyMs: real)

  datatype ConfidenceGrade = ConfidenceGrade(confidence: Probability, reasoning: string, model: string, latencyMs: real)

  datatype TradeVerdict = TradeVerdict(action: TradeAction, sizeUsd: real, reasoning: string, model: string, latencyMs: real)

  datatype CouncilDecision = CouncilDecision(
    signal: DivergenceSignal,
    sentiment: SentimentResult,
    confidence: ConfidenceGrade,
    verdict: TradeVerdict,
    totalLatencyMs: real)

  datatype OrderResult = OrderResult(
    orderId: string,
    conditionId: string,
    tokenId: string,
    symbol: string,
    side: OrderSide,
    sizeUsd: real,
    price: real,
    filled: bool,
    isPaper: bool)

  /**
   * A persisted trade. The exit price, profit and closing instant stay
   * absent until the trade is closed; `closedAt` is an abstract instant.
   */
  datatype TradeRecord = TradeRecord(
    id: Option<int>,
    orderId: string,
    symbol: string,
    conditionId: string,
    tokenId: string,
    side: string,
    sizeUsd: real,
    entryPrice: real,
    exitPrice: Option<real>,
    pnl: Option<real>,
    isPaper: bool,
    signalScore: real,
    sentiment: string,
    confidence: real,
    verdict: string,
    councilReasoning: string,
    closedAt: Option<int>)
  {
    /** The database's `closed_at IS NULL`. */
    predicate IsOpen() {
      closedAt.None?
    }
  }

  /**
   * A record as the executors build it: every optional field left at its
   * default, so the new trade is open.
   */
  function NewTradeRecord(
    orderId: string, symbol: string, conditionId: string, tokenId: string, side: string,
    sizeUsd: real, entryPrice: real, isPaper: bool, signalScore: real,
    sentiment: string, confidence: real, verdict: string, councilReasoning: string): (r: TradeRecord)
    ensures r.IsOpen() && r.exitPrice.None? && r.pnl.None? && r.id.None?
    ensures r.orderId == orderId && r.sizeUsd == sizeUsd && r.entryPrice == entryPrice && r.isPaper == isPaper
  {
    TradeRecord(None, orderId, symbol, conditionId, tokenId, side, sizeUsd, entryPrice, None, None,
      isPaper, signalScore, sentiment, confidence, verdict, councilReasoning, None)
  }
}
