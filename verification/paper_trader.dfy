/**
 * Paper execution (execution/paper_trader.py): a TRADE verdict that
 * passes the risk gate is filled at the signal's odds midpoint, logged
 * as an open paper trade, and its signal is logged with action "TRADE".
 * The uuid behind the order id is a parameter.
 */
module PaperTrader {
  import opened Common
  import opened Schemas
  import opened Ledger
  import opened PositionTracker

  /** BUY for an "UP" signal, SELL for anything else. */
  function SideOf(direction: string): (s: OrderSide)
    ensures s == Buy <==> direction == "UP"
  {
    if direction == "UP" then Buy else Sell
  }

  /** The longest reasoning a trade record keeps. */
  const MaxStoredReasoning: nat := 500

  /** The record the executors log for a filled order. */
  function RecordOf(decision: CouncilDecision, orderId: string, side: string, price: real, isPaper: bool): (r: TradeRecord)
    ensures r.IsOpen() && r.orderId == orderId && r.side == side && r.entryPrice == price && r.isPaper == isPaper
    ensures r.sizeUsd == decision.verdict.sizeUsd && r.symbol == decision.signal.symbol
    ensures |r.councilReasoning| <= MaxStoredReasoning
    ensures r.councilReasoning == Take(decision.verdict.reasoning, MaxStoredReasoning)
  {
    var s := decision.signal;
    NewTradeRecord(orderId, s.symbol, s.conditionId, s.tokenId, side, decision.verdict.sizeUsd, price, isPaper,
      s.signalScore, decision.sentiment.sentiment.Value(), decision.confidence.confidence as real,
      decision.verdict.action.Value(), Take(decision.verdict.reasoning, MaxStoredReasoning))
  }

  /** The result of an execution attempt: the order, if any, and the database after it. */
  datatype Execution = Execution(order: Option<OrderResult>, ledger: Ledger)

  /** `execute`; `uuidHex` stands for the random uuid's hex digits. */
  function Execute(limits: Limits, ledger: Ledger, decision: CouncilDecision, uuidHex: string): (r: Execution)
    ensures r.order.Some? <==> decision.verdict.action == Trade
                                && CanTrade(limits, ledger.trades, decision.verdict.sizeUsd) == Allowed
    ensures r.order.None? ==> r.ledger == ledger
  {
    var size := decision.verdict.sizeUsd;
    if decision.verdict.action != Trade then Execution(None, ledger)
    else if CanTrade(limits, ledger.trades, size) != Allowed then Execution(None, ledger)
    else
      var signal := decision.signal;
      var side := SideOf(signal.direction);
      var orderId := "paper-" + Take(uuidHex, 12);
      var price := signal.oddsMidpoint;
      var order := OrderResult(orderId, signal.conditionId, signal.tokenId, signal.symbol, side, size, price, true, true);
      var record := RecordOf(decision, orderId, side.Value(), price, true);
      Execution(Some(order), LogSignal(LogTrade(ledger, record), SignalEntry(signal, "TRADE")))
  }

  /**
   * A paper fill: the order is filled, paper, at the signal's midpoint,
   * for the verdict's size, on the side the direction picks; exactly one
   * open record describing it is appended, and the signal is logged as
   * traded.
   */
  lemma {:induction false} ExecuteFill(limits: Limits, ledger: Ledger, decision: CouncilDecision, uuidHex: string)
    requires Execute(limits, ledger, decision, uuidHex).order.Some?
    ensures var r := Execute(limits, ledger, decision, uuidHex);
            var o := r.order.value;
            && o.filled && o.isPaper
            && o.sizeUsd == decision.verdict.sizeUsd && o.price == decision.signal.oddsMidpoint
            && (o.side == Buy <==> decision.signal.direction == "UP")
            && o.symbol == decision.signal.symbol && o.tokenId == decision.signal.tokenId
            && o.conditionId == decision.signal.conditionId
            && r.ledger.trades == ledger.trades + [RecordOf(decision, o.orderId, o.side.Value(), o.price, true)]
            && r.ledger.signals == ledger.signals + [SignalEntry(decision.signal, "TRADE")]
  {
  }

  /** The order id is "paper-" followed by at most twelve characters of the uuid. */
  lemma {:induction false} PaperOrderId(limits: Limits, ledger: Ledger, decision: CouncilDecision, uuidHex: string)
    requires Execute(limits, ledger, decision, uuidHex).order.Some?
    ensures var id := Execute(limits, ledger, decision, uuidHex).order.value.orderId;
            |id| <= 18 && id[..6] == "paper-"
  {
  }

  /** An execution never breaks the risk invariant. */
  lemma {:induction false} ExecuteKeepsLimits(limits: Limits, ledger: Ledger, decision: CouncilDecision, uuidHex: string)
    requires WithinLimits(limits, ledger.trades)
    ensures WithinLimits(limits, Execute(limits, ledger, decision, uuidHex).ledger.trades)
  {
    var r := Execute(limits, ledger, decision, uuidHex);
    if r.order.Some? {
      ExecuteFill(limits, ledger, decision, uuidHex);
      var o := r.order.value;
      AdmitKeepsLimits(limits, ledger.trades, RecordOf(decision, o.orderId, o.side.Value(), o.price, true));
    }
  }

  /** Executing a run of decisions, one uuid each, in order. */
  function ExecuteAll(limits: Limits, ledger: Ledger, decisions: seq<CouncilDecision>, uuids: seq<string>): (r: Ledger)
    requires |uuids| == |decisions|
    ensures |r.trades| <= |ledger.trades| + |decisions|
    decreases |decisions|
  {
    if |decisions| == 0 then ledger
    else ExecuteAll(limits, Execute(limits, ledger, decisions[0], uuids[0]).ledger, decisions[1..], uuids[1..])
  }

  /**
   * Executing decisions one after another from a state within the limits
   * never opens more positions than allowed nor exposes more than the
   * capital.
   */
  lemma {:induction false} ExecuteAllKeepsLimits(limits: Limits, ledger: Ledger, decisions: seq<CouncilDecision>, uuids: seq<string>)
    requires |uuids| == |decisions|
    requires WithinLimits(limits, ledger.trades)
    ensures WithinLimits(limits, ExecuteAll(limits, ledger, decisions, uuids).trades)
    decreases |decisions|
  {
    if |decisions| > 0 {
      ExecuteKeepsLimits(limits, ledger, decisions[0], uuids[0]);
      ExecuteAllKeepsLimits(limits, Execute(limits, ledger, decisions[0], uuids[0]).ledger, decisions[1..], uuids[1..]);
    }
  }
}
