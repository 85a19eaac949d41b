/**
 * The rolling price history of the Binance feed (feeds/binance_ws.py):
 * one window of at most `MomentumWindow` prices per lower-cased symbol,
 * and momentum as the percentage move from the oldest to the newest
 * price in the window.
 */
module Momentum {
  import opened Common
  import opened Text
  import opened Schemas

  /** The window length, `MOMENTUM_WINDOW`. */
  const MomentumWindow: nat := 20

  /** Price windows keyed by lower-cased symbol, oldest price first. */
  type History = map<string, seq<real>>

  /** Every window respects the deque's `maxlen`. */
  predicate WellFormed(h: History) {
    forall s :: s in h ==> |h[s]| <= MomentumWindow
  }

  /** The feed's constructor: one empty window per configured symbol, keyed by its lower-case form. */
  function NewHistory(symbols: seq<string>): (h: History)
    ensures WellFormed(h)
    ensures forall i :: 0 <= i < |symbols| ==> Lower(symbols[i]) in h && h[Lower(symbols[i])] == []
    ensures forall s :: s in h ==> exists i :: 0 <= i < |symbols| && s == Lower(symbols[i])
  {
    var keys := set i | 0 <= i < |symbols| :: Lower(symbols[i]);
    map s | s in keys :: []
  }

  /**
   * Percentage move from the oldest to the newest price of a window; zero
   * when there are fewer than two prices or the oldest is zero.
   */
  function WindowMomentum(w: seq<real>): (r: real)
    ensures |w| < 2 || w[0] == 0.0 ==> r == 0.0
    ensures |w| >= 2 && w[0] != 0.0 ==> r * w[0] == (w[|w| - 1] - w[0]) * 100.0
  {
    if |w| < 2 then 0.0
    else if w[0] == 0.0 then 0.0
    else (w[|w| - 1] - w[0]) / w[0] * 100.0
  }

  /** The window stored for `symbol` after lower-casing, or an empty one for an unknown symbol. */
  function WindowOf(h: History, symbol: string): seq<real> {
    var key := Lower(symbol);
    if key in h then h[key] else []
  }

  /** `_calc_momentum`: momentum of the stored window against the current price; `None` where the lookup raises KeyError. */
  function CalcMomentum(h: History, symbol: string, currentPrice: real): (r: Option<real>)
    ensures r.Some? <==> symbol in h
    ensures r.Some? && |h[symbol]| >= 2 && h[symbol][0] != 0.0 ==>
      r.value * h[symbol][0] == (currentPrice - h[symbol][0]) * 100.0
    ensures r.Some? && (|h[symbol]| < 2 || h[symbol][0] == 0.0) ==> r.value == 0.0
  {
    if symbol !in h then None
    else
      var w := h[symbol];
      if |w| < 2 then Some(0.0)
      else if w[0] == 0.0 then Some(0.0)
      else Some((currentPrice - w[0]) / w[0] * 100.0)
  }

  /** `get_momentum`: the momentum of the symbol's window, zero for an unknown symbol. */
  function GetMomentum(h: History, symbol: string): (r: real)
    ensures Lower(symbol) !in h ==> r == 0.0
  {
    WindowMomentum(WindowOf(h, symbol))
  }

  /** `get_latest_price`: the newest price of the symbol's window, if any. */
  function GetLatestPrice(h: History, symbol: string): (r: Option<real>)
    ensures r.None? <==> |WindowOf(h, symbol)| == 0
    ensures r.Some? ==> r.value == WindowOf(h, symbol)[|WindowOf(h, symbol)| - 1]
  {
    var w := WindowOf(h, symbol);
    if |w| == 0 then None else Some(w[|w| - 1])
  }

  /** What one ticker message produces: the updated history, the emitted tick and the momentum it logs. */
  datatype TickOutcome = TickOutcome(history: History, tick: PriceTick, momentum: real)

  /**
   * One ticker message of the stream loop: the symbol is lower-cased, the
   * price appended to its window, momentum computed against it and a tick
   * emitted. `None` is the KeyError of a symbol with no window.
   */
  function OnTicker(h: History, rawSymbol: string, price: real, volume: real, changePct: real): (r: Option<TickOutcome>)
    requires WellFormed(h)
    ensures r.Some? <==> Lower(rawSymbol) in h
    ensures r.Some? ==> WellFormed(r.value.history) && r.value.history.Keys == h.Keys
    ensures r.Some? ==> r.value.tick == PriceTick(Lower(rawSymbol), price, volume, changePct)
  {
    var symbol := Lower(rawSymbol);
    if symbol !in h then None
    else
      var h' := h[symbol := PushBounded(h[symbol], price, MomentumWindow)];
      var m := CalcMomentum(h', symbol, price);
      Some(TickOutcome(h', PriceTick(symbol, price, volume, changePct), m.value))
  }

  /**
   * After a tick, the symbol's window ends with the new price, holds at most
   * `MomentumWindow` prices, evicts only the oldest price when full, and
   * every other symbol's window is untouched.
   */
  lemma {:induction false} OnTickerWindow(h: History, rawSymbol: string, price: real, volume: real, changePct: real)
    requires WellFormed(h) && Lower(rawSymbol) in h
    ensures var h' := OnTicker(h, rawSymbol, price, volume, changePct).value.history;
      var w := h[Lower(rawSymbol)];
      && (|w| < MomentumWindow ==> h'[Lower(rawSymbol)] == w + [price])
      && (|w| == MomentumWindow ==> h'[Lower(rawSymbol)] == w[1..] + [price])
      && (forall s :: s in h && s != Lower(rawSymbol) ==> h'[s] == h[s])
  {
    PushBoundedShape(h[Lower(rawSymbol)], price, MomentumWindow);
  }

  /** Right after a tick, the latest price of that symbol is the tick's price, whatever case the symbol is asked in. */
  lemma {:induction false} LatestAfterTick(h: History, rawSymbol: string, price: real, volume: real, changePct: real, query: string)
    requires WellFormed(h) && Lower(rawSymbol) in h && Lower(query) == Lower(rawSymbol)
    ensures GetLatestPrice(OnTicker(h, rawSymbol, price, volume, changePct).value.history, query) == Some(price)
  {
    PushBoundedShape(h[Lower(rawSymbol)], price, MomentumWindow);
  }

  /**
   * The momentum the stream loop computes against the current price equals
   * what `get_momentum` reports right afterwards, since the current price
   * is the newest entry of the window.
   */
  lemma {:induction false} CalcAgreesWithGet(h: History, rawSymbol: string, price: real, volume: real, changePct: real)
    requires WellFormed(h) && Lower(rawSymbol) in h
    ensures var o := OnTicker(h, rawSymbol, price, volume, changePct).value;
      o.momentum == GetMomentum(o.history, rawSymbol)
  {
    var key := Lower(rawSymbol);
    var w := PushBounded(h[key], price, MomentumWindow);
    var h' := h[key := w];
    PushBoundedShape(h[key], price, MomentumWindow);
    assert w[|w| - 1] == price;
    var o := OnTicker(h, rawSymbol, price, volume, changePct).value;
    assert o.history == h' && o.momentum == CalcMomentum(h', key, price).value;
    assert WindowOf(h', rawSymbol) == w;
  }

  /** Lookups ignore the case of the symbol. */
  lemma {:induction false} LookupIgnoresCase(h: History, symbol: string)
    ensures GetMomentum(h, symbol) == GetMomentum(h, Lower(symbol))
    ensures GetLatestPrice(h, symbol) == GetLatestPrice(h, Lower(symbol))
  {
    LowerIdempotent(symbol);
  }

  /**
   * Feeding a window any run of prices leaves exactly the newest
   * `MomentumWindow` of them (with earlier contents), so once at least that
   * many prices have arrived the momentum compares the newest price with the
   * one `MomentumWindow - 1` ticks before it.
   */
  lemma {:induction false} MomentumOverLastWindow(w: seq<real>, prices: seq<real>)
    requires |w| <= MomentumWindow && |prices| >= MomentumWindow
    ensures var w' := PushAll(w, prices, MomentumWindow);
      var oldest := prices[|prices| - MomentumWindow];
      && w' == prices[|prices| - MomentumWindow..]
      && (oldest != 0.0 ==> WindowMomentum(w') * oldest == (prices[|prices| - 1] - oldest) * 100.0)
  {
    PushAllKeepsNewest(w, prices, MomentumWindow);
    var all := w + prices;
    assert all[|all| - MomentumWindow..] == prices[|prices| - MomentumWindow..];
  }
}
