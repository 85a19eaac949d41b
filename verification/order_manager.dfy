/**
 * Live execution (execution/order_manager.py). The venue is reached
 * through two oracle inputs: the midpoint it quotes for the token and
 * its reply to the posted order. Whether the order is posted at all is
 * part of the result, so "nothing is posted" can be stated.
 */
module OrderManager {
  import opened Common
  import opened Schemas
  import opened Ledger
  import opened PositionTracker
  import opened PaperTrader

  /** The request sent to the venue: token, limit price, number of shares, side text. */
  datatype PostedOrder = PostedOrder(tokenId: string, price: real, shares: real, side: string)

  /** The venue's reply when it returned one; `orderId` is its "orderID" entry, if present. */
  datatype PostReply = PostReply(orderId: Option<string>)

  datatype LiveExecution = LiveExecution(posted: Option<PostedOrder>, order: Option<OrderResult>, ledger: Ledger)

  /**
   * `execute`. `midpoint` is what the venue quotes for the signal's token
   * and `reply` what it answers to the post (None where the client
   * returns None); both are consulted only when the code reaches them.
   * The trades table is the only one written.
   */
  function LiveExecute(limits: Limits, ledger: Ledger, decision: CouncilDecision,
                       midpoint: Option<real>, reply: Option<PostReply>, uuidHex: string): (r: LiveExecution)
    ensures r.posted.Some? <==> decision.verdict.action == Trade
                                 && CanTrade(limits, ledger.trades, decision.verdict.sizeUsd) == Allowed
                                 && midpoint.Some? && midpoint.value > 0.0
    ensures r.order.Some? <==> r.posted.Some? && reply.Some?
    ensures r.order.None? ==> r.ledger == ledger
    ensures r.ledger.signals == ledger.signals
  {
    var size := decision.verdict.sizeUsd;
    var signal := decision.signal;
    if decision.verdict.action != Trade then LiveExecution(None, None, ledger)
    else if CanTrade(limits, ledger.trades, size) != Allowed then LiveExecution(None, None, ledger)
    else
      var sideEnum := SideOf(signal.direction);
      var side := sideEnum.Value();
      if midpoint.None? || midpoint.value <= 0.0 then LiveExecution(None, None, ledger)
      else
        var price := midpoint.value;
        var posted := PostedOrder(signal.tokenId, price, size / price, side);
        if reply.None? then LiveExecution(Some(posted), None, ledger)
        else
          var orderId := reply.value.orderId.GetOr("live-" + Take(uuidHex, 12));
          var order := OrderResult(orderId, signal.conditionId, signal.tokenId, signal.symbol, sideEnum, size, price, true, false);
          LiveExecution(Some(posted), Some(order), LogTrade(ledger, RecordOf(decision, orderId, side, price, false)))
  }

  /**
   * A posted order asks for the verdict's dollars in shares at the
   * quoted midpoint: shares times price is the size.
   */
  lemma {:induction false} PostedAtMidpoint(limits: Limits, ledger: Ledger, decision: CouncilDecision,
                                            midpoint: Option<real>, reply: Option<PostReply>, uuidHex: string)
    requires LiveExecute(limits, ledger, decision, midpoint, reply, uuidHex).posted.Some?
    ensures var p := LiveExecute(limits, ledger, decision, midpoint, reply, uuidHex).posted.value;
            && p.price == midpoint.value && p.price > 0.0
            && p.shares * p.price == decision.verdict.sizeUsd
            && p.tokenId == decision.signal.tokenId
            && (p.side == "BUY" <==> decision.signal.direction == "UP")
            && (p.side == "BUY" || p.side == "SELL")
  {
  }

  /**
   * A live fill: a real (not paper) filled order at the midpoint, the
   * venue's id when it gave one, and exactly one open record of it.
   */
  lemma {:induction false} LiveFill(limits: Limits, ledger: Ledger, decision: CouncilDecision,
                                    midpoint: Option<real>, reply: Option<PostReply>, uuidHex: string)
    requires LiveExecute(limits, ledger, decision, midpoint, reply, uuidHex).order.Some?
    ensures var r := LiveExecute(limits, ledger, decision, midpoint, reply, uuidHex);
            var o := r.order.value;
            && o.filled && !o.isPaper
            && o.price == midpoint.value && o.sizeUsd == decision.verdict.sizeUsd
            && (o.side == Buy <==> decision.signal.direction == "UP")
            && (reply.value.orderId.Some? ==> o.orderId == reply.value.orderId.value)
            && r.ledger.trades == ledger.trades + [RecordOf(decision, o.orderId, o.side.Value(), o.price, false)]
  {
  }

  /** Live execution never breaks the risk invariant either. */
  lemma {:induction false} LiveExecuteKeepsLimits(limits: Limits, ledger: Ledger, decision: CouncilDecision,
                                                  midpoint: Option<real>, reply: Option<PostReply>, uuidHex: string)
    requires WithinLimits(limits, ledger.trades)
    ensures WithinLimits(limits, LiveExecute(limits, ledger, decision, midpoint, reply, uuidHex).ledger.trades)
  {
    var r := LiveExecute(limits, ledger, decision, midpoint, reply, uuidHex);
    if r.order.Some? {
      LiveFill(limits, ledger, decision, midpoint, reply, uuidHex);
      var o := r.order.value;
      AdmitKeepsLimits(limits, ledger.trades, RecordOf(decision, o.orderId, o.side.Value(), o.price, false));
    }
  }
}
