/**
 * The council loop's per-signal step (agent.py, `_council_loop`): a
 * per-symbol cooldown drops signals that arrive too soon after a trade;
 * otherwise the signal is logged, the council decides with the capital
 * still available, a TRADE goes to the paper trader (also in live mode),
 * and a returned order starts the symbol's cooldown. The clock reading,
 * the council and the order-id uuid are parameters; the queue, its
 * timeout and the shutdown flag are not modelled.
 */
module Agent {
  import opened Common
  import opened Schemas
  import opened Ledger
  import opened PositionTracker
  import opened PaperTrader

  /** The configured cooldown after a trade, in seconds (the default of `COOLDOWN_SECONDS`). */
  const CooldownSeconds: real := 300.0

  /** For each symbol, the clock reading until which its signals are dropped. */
  type Cooldowns = map<string, real>

  /** `cooldown_until.get(symbol, 0)`. */
  function CooldownOf(c: Cooldowns, symbol: string): (t: real)
    ensures symbol !in c ==> t == 0.0
    ensures symbol in c ==> t == c[symbol]
  {
    if symbol in c then c[symbol] else 0.0
  }

  /** The gate: a signal is dropped while the clock is before its symbol's cooldown end. */
  predicate InCooldown(c: Cooldowns, symbol: string, now: real) {
    now < CooldownOf(c, symbol)
  }

  /** The council as seen by the loop: signal and available capital in, decision out. */
  type Council = (DivergenceSignal, real) -> CouncilDecision

  datatype AgentState = AgentState(cooldowns: Cooldowns, ledger: Ledger)

  /** One signal's passage: the state after it, the council's decision if it ran, and the order if one was filled. */
  datatype StepResult = StepResult(state: AgentState, decision: Option<CouncilDecision>, order: Option<OrderResult>)

  /** The body of the loop for one dequeued signal read at clock `now`. */
  function Step(limits: Limits, council: Council, s: AgentState, signal: DivergenceSignal, now: real, uuidHex: string): (r: StepResult)
    ensures r.decision.None? <==> InCooldown(s.cooldowns, signal.symbol, now)
    ensures r.decision.None? ==> r.state == s && r.order.None?
    ensures r.decision.Some? ==> r.decision.value == council(signal, AvailableCapital(limits, s.ledger.trades))
    ensures r.order.Some? ==> r.decision.Some? && r.decision.value.verdict.action == Trade
    ensures r.state.cooldowns == if r.order.Some? then s.cooldowns[signal.symbol := now + CooldownSeconds] else s.cooldowns
  {
    if InCooldown(s.cooldowns, signal.symbol, now) then StepResult(s, None, None)
    else
      var logged := LogSignal(s.ledger, SignalEntry(signal, "SKIP"));
      var decision := council(signal, AvailableCapital(limits, logged.trades));
      if decision.verdict.action != Trade then StepResult(AgentState(s.cooldowns, logged), Some(decision), None)
      else
        var e := Execute(limits, logged, decision, uuidHex);
        var cooldowns := if e.order.Some? then s.cooldowns[signal.symbol := now + CooldownSeconds] else s.cooldowns;
        StepResult(AgentState(cooldowns, e.ledger), Some(decision), e.order)
  }

  /** A symbol that never traded has cooldown 0, so on a non-negative clock it is never blocked. */
  lemma {:induction false} NeverTradedNotBlocked(c: Cooldowns, symbol: string, now: real)
    requires symbol !in c && now >= 0.0
    ensures !InCooldown(c, symbol, now)
  {
  }

  /**
   * A SKIP verdict executes nothing: no trade is written and the
   * cooldowns stay as they were; only the signal itself is logged.
   */
  lemma {:induction false} SkipChangesNothing(limits: Limits, council: Council, s: AgentState, signal: DivergenceSignal, now: real, uuidHex: string)
    requires !InCooldown(s.cooldowns, signal.symbol, now)
    requires council(signal, AvailableCapital(limits, s.ledger.trades)).verdict.action == Skip
    ensures var r := Step(limits, council, s, signal, now, uuidHex);
            && r.order.None? && r.state.cooldowns == s.cooldowns
            && r.state.ledger.trades == s.ledger.trades
            && r.state.ledger.signals == s.ledger.signals + [SignalEntry(signal, "SKIP")]
  {
  }

  /** A step touches at most the cooldown of its own signal's symbol. */
  lemma {:induction false} OtherSymbolsUnchanged(limits: Limits, council: Council, s: AgentState, signal: DivergenceSignal, now: real, uuidHex: string, other: string)
    requires other != signal.symbol
    ensures var c := Step(limits, council, s, signal, now, uuidHex).state.cooldowns;
            (other in c <==> other in s.cooldowns) && CooldownOf(c, other) == CooldownOf(s.cooldowns, other)
  {
  }

  /**
   * After a filled order, every later signal for the same symbol is
   * dropped until the cooldown has run out.
   */
  lemma {:induction false} TradeStartsCooldown(limits: Limits, council: Council, s: AgentState, signal: DivergenceSignal, now: real, uuidHex: string, later: real)
    requires Step(limits, council, s, signal, now, uuidHex).order.Some?
    requires now <= later < now + CooldownSeconds
    ensures InCooldown(Step(limits, council, s, signal, now, uuidHex).state.cooldowns, signal.symbol, later)
  {
  }

  /** One step never breaks the risk invariant. */
  lemma {:induction false} StepKeepsLimits(limits: Limits, council: Council, s: AgentState, signal: DivergenceSignal, now: real, uuidHex: string)
    requires WithinLimits(limits, s.ledger.trades)
    ensures WithinLimits(limits, Step(limits, council, s, signal, now, uuidHex).state.ledger.trades)
  {
    if !InCooldown(s.cooldowns, signal.symbol, now) {
      var logged := LogSignal(s.ledger, SignalEntry(signal, "SKIP"));
      var decision := council(signal, AvailableCapital(limits, logged.trades));
      if decision.verdict.action == Trade {
        ExecuteKeepsLimits(limits, logged, decision, uuidHex);
      }
    }
  }

  /** A dequeued signal with the clock reading and uuid the loop draws for it. */
  datatype Arrival = Arrival(signal: DivergenceSignal, now: real, uuidHex: string)

  /** The loop over a sequence of arrivals. */
  function Run(limits: Limits, council: Council, s: AgentState, arrivals: seq<Arrival>): (r: AgentState)
    ensures |r.ledger.trades| >= |s.ledger.trades|
    decreases |arrivals|
  {
    if |arrivals| == 0 then s
    else
      var a := arrivals[0];
      Run(limits, council, Step(limits, council, s, a.signal, a.now, a.uuidHex).state, arrivals[1..])
  }

  /**
   * However signals arrive and whatever the council decides, a loop that
   * starts within the risk limits stays within them.
   */
  lemma {:induction false} RunKeepsLimits(limits: Limits, council: Council, s: AgentState, arrivals: seq<Arrival>)
    requires WithinLimits(limits, s.ledger.trades)
    ensures WithinLimits(limits, Run(limits, council, s, arrivals).ledger.trades)
    decreases |arrivals|
  {
    if |arrivals| > 0 {
      var a := arrivals[0];
      StepKeepsLimits(limits, council, s, a.signal, a.now, a.uuidHex);
      RunKeepsLimits(limits, council, Step(limits, council, s, a.signal, a.now, a.uuidHex).state, arrivals[1..]);
    }
  }
}
