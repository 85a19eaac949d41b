/**
 * The simulation layer's deterministic parts (feeds/simulation.py):
 * synthetic markets at strikes around the current price, the strike
 * parsed back out of the market question, the lagged-price buffers and
 * the clamped odds computed from them. Prices, noise and the clock are
 * parameters; the random walk and the async loop are not modelled.
 */
module Simulation {
  import opened Common
  import opened Text
  import opened Decimal
  import opened Schemas
  import opened Discovery

  /** `DEFAULT_PRICES.get(symbol)`: the fallback price before the live feed reports one. */
  function KnownDefaultPrice(symbol: string): (r: Option<real>)
    ensures r.Some? ==> r.value > 0.0
    ensures r.Some? <==> symbol == "btcusdt" || symbol == "ethusdt" || symbol == "solusdt"
    ensures symbol == "btcusdt" ==> r == Some(87000.0)
    ensures symbol == "ethusdt" ==> r == Some(2400.0)
    ensures symbol == "solusdt" ==> r == Some(140.0)
  {
    if symbol == "btcusdt" then Some(87000.0)
    else if symbol == "ethusdt" then Some(2400.0)
    else if symbol == "solusdt" then Some(140.0)
    else None
  }

  /** `DEFAULT_PRICES.get(symbol, 1000.0)`, used when generating markets. */
  function DefaultPrice(symbol: string): (r: real)
    ensures r > 0.0
    ensures KnownDefaultPrice(symbol).Some? ==> r == KnownDefaultPrice(symbol).value
    ensures KnownDefaultPrice(symbol).None? ==> r == 1000.0
  {
    KnownDefaultPrice(symbol).GetOr(1000.0)
  }

  /**
   * The relative strike offsets for `n` markets per symbol: one at the
   * price, two around it, or three around it followed by further levels
   * above. Any `n` other than 1 and 2 takes the last branch, so a
   * non-positive `n` still gives three.
   */
  function Offsets(n: int, spread: real): (r: seq<real>)
    ensures n >= 1 ==> |r| == n
    ensures n <= 0 ==> |r| == 3
  {
    if n == 1 then [0.0]
    else if n == 2 then [-spread, spread]
    else [-spread, 0.0, spread] + ExtraLevels(if n > 3 then n - 3 else 0, spread)
  }

  /** The levels `spread * (j - 1)` for `j` in `range(3, 3 + count)`. */
  function ExtraLevels(count: nat, spread: real): (r: seq<real>)
    ensures |r| == count
    ensures forall i :: 0 <= i < count ==> r[i] == spread * ((i + 2) as real)
  {
    seq(count, i => spread * ((i + 2) as real))
  }

  /** Beyond one or two markets, the offset at position k is `(k - 1)` spreads. */
  lemma {:induction false} OffsetAt(n: int, spread: real, k: nat)
    requires n != 1 && n != 2 && k < |Offsets(n, spread)|
    ensures Offsets(n, spread)[k] == spread * ((k - 1) as real)
  {
    if k < 3 {
      OffsetHeadAt(n, spread, k);
    } else {
      OffsetTailAt(n, spread, k);
    }
  }

  lemma {:induction false} OffsetHeadAt(n: int, spread: real, k: nat)
    requires n != 1 && n != 2 && k < 3
    ensures Offsets(n, spread)[k] == spread * ((k - 1) as real)
  {
    var r := Offsets(n, spread);
    assert r[..3] == [-spread, 0.0, spread];
    assert r[k] == r[..3][k];
  }

  lemma {:induction false} OffsetTailAt(n: int, spread: real, k: nat)
    requires n > 3 && 3 <= k < n
    ensures Offsets(n, spread)[k] == spread * ((k - 1) as real)
  {
    assert Offsets(n, spread)[k] == ExtraLevels(n - 3, spread)[k - 3];
  }

  /** With a positive spread the offsets strictly increase, so the strikes of one symbol are distinct. */
  lemma {:induction false} OffsetsIncreasing(n: int, spread: real)
    requires spread > 0.0
    ensures forall i, j :: 0 <= i < j < |Offsets(n, spread)| ==> Offsets(n, spread)[i] < Offsets(n, spread)[j]
  {
    var r := Offsets(n, spread);
    forall i, j | 0 <= i < j < |r|
      ensures r[i] < r[j]
    {
      if n != 1 && n != 2 {
        OffsetAt(n, spread, i);
        OffsetAt(n, spread, j);
        assert r[j] - r[i] == spread * ((j - i) as real);
      }
    }
  }

  /** `round(price * (1 + offset), 2)`, held as a whole number of cents. */
  function StrikeCents(price: real, offset: real): int {
    RoundHalfEven(price * (1.0 + offset) * 100.0)
  }

  /** `symbol.replace("usdt", "").upper()`. */
  function TickerOf(symbol: string): string {
    Upper(ReplaceAll(symbol, "usdt", ""))
  }

  /** `f"Will {ticker} be above ${strike:,.2f} in 15 min?"` for a strike of `cents`. */
  function Question(ticker: string, cents: int): string {
    "Will " + ticker + " be above $" + GroupedCents(cents) + " in 15 min?"
  }

  /** `f"sim-{symbol}-{i}"`; the token id uses the prefix "sim-tok-". */
  function SimId(prefix: string, symbol: string, i: nat): string {
    prefix + symbol + "-" + NatToString(i)
  }

  function SimMarket(symbol: string, i: nat, cents: int): DiscoveredMarket {
    DiscoveredMarket(SimId("sim-", symbol, i), SimId("sim-tok-", symbol, i), Question(TickerOf(symbol), cents), "Yes", symbol)
  }

  /** The markets of one symbol: one per offset, numbered from 0. */
  function MarketsAt(symbol: string, price: real, offsets: seq<real>): (r: seq<DiscoveredMarket>)
    ensures |r| == |offsets|
  {
    seq(|offsets|, i requires 0 <= i < |offsets| => SimMarket(symbol, i, StrikeCents(price, offsets[i])))
  }

  /**
   * `generate_markets`: for each configured symbol in order, the markets
   * at its latest price, or the default price when the feed has none.
   */
  function GenerateMarkets(symbols: seq<string>, latest: string -> Option<real>, n: int, spreadPct: real): (r: seq<DiscoveredMarket>)
    ensures |r| == |symbols| * |Offsets(n, spreadPct / 100.0)|
  {
    if |symbols| == 0 then []
    else
      var s := symbols[0];
      MarketsAt(s, latest(s).GetOr(DefaultPrice(s)), Offsets(n, spreadPct / 100.0))
      + GenerateMarkets(symbols[1..], latest, n, spreadPct)
  }

  /**
   * `_strike_from_question`: the text after the first "$" up to the next
   * space, commas removed, read as a number; None where Python raises
   * IndexError (no "$") or ValueError (not a number).
   */
  function StrikeFromQuestion(q: string): (r: Option<real>)
    ensures '$' !in q ==> r.None?
  {
    var parts := Split(q, '$');
    if |parts| < 2 then None
    else ParseFloat(RemoveChar(Split(parts[1], ' ')[0], ','))
  }

  /** A "$" followed directly by a space leaves an empty token, which is not a number. */
  lemma {:induction false} EmptyTokenNoStrike(a: string, b: string)
    requires '$' !in a
    ensures StrikeFromQuestion(a + "$ " + b) == None
  {
    var q := a + "$ " + b;
    assert q == a + ['$'] + (" " + b);
    SplitAt(a, " " + b, '$');
    var after := Split(" " + b, '$')[0];
    assert after[..0] == "" && after == "" + [' '] + after[1..] by {
      if '$' in " " + b {
        var k := FirstIndex(" " + b, '$');
        assert k > 0;
      }
    }
    SplitAt("", after[1..], ' ');
  }

  /** The formatted amount has neither a dollar sign nor a space. */
  lemma {:induction false} AmountSeparators(cents: int)
    ensures '$' !in GroupedCents(cents) && ' ' !in GroupedCents(cents)
  {
    GroupedCentsChars(cents);
    var g := GroupedCents(cents);
    forall k | 0 <= k < |g|
      ensures g[k] != '$' && g[k] != ' '
    {
      assert AmountChar(g[k]);
    }
  }

  /** Everything up to the dollar sign. */
  function QuestionHead(ticker: string): string {
    "Will " + ticker + " be above "
  }

  lemma {:induction false} QuestionHeadNoDollar(ticker: string)
    requires '$' !in ticker
    ensures '$' !in QuestionHead(ticker)
  {
    var head := QuestionHead(ticker);
    forall k | 0 <= k < |head|
      ensures head[k] != '$'
    {
      if 5 <= k < 5 + |ticker| {
        assert head[k] == ticker[k - 5];
      }
    }
  }

  /** The question splits at its dollar sign into the head and the amount followed by the tail. */
  lemma {:induction false} QuestionShape(ticker: string, cents: int)
    ensures Question(ticker, cents) == QuestionHead(ticker) + ['$'] + (GroupedCents(cents) + [' '] + "in 15 min?")
  {
  }

  /** Parsing a formatted question gives back its strike exactly, whatever the amount. */
  lemma {:induction false} StrikeRoundTrip(ticker: string, cents: int)
    requires '$' !in ticker
    ensures StrikeFromQuestion(Question(ticker, cents)) == Some(cents as real / 100.0)
  {
    var g := GroupedCents(cents);
    var after := g + [' '] + "in 15 min?";
    AmountSeparators(cents);
    QuestionHeadNoDollar(ticker);
    QuestionShape(ticker, cents);
    assert '$' !in after;
    SplitOnce(QuestionHead(ticker), after, '$');
    SplitAt(g, "in 15 min?", ' ');
    ParseGroupedCents(cents);
  }

  /** A symbol without "$" gives a ticker without "$". */
  lemma {:induction false} TickerKeepsNoDollar(symbol: string)
    requires '$' !in symbol
    ensures '$' !in TickerOf(symbol)
  {
    var t := ReplaceAll(symbol, "usdt", "");
    assert '$' !in t;
    forall k | 0 <= k < |Upper(t)|
      ensures Upper(t)[k] != '$'
    {
      assert Upper(t)[k] == UpperChar(t[k]);
    }
  }

  /** Every generated market's question parses back to the two-decimal strike it was built from. */
  lemma {:induction false} GeneratedStrike(symbol: string, i: nat, cents: int)
    requires '$' !in symbol
    ensures StrikeFromQuestion(SimMarket(symbol, i, cents).question) == Some(cents as real / 100.0)
  {
    TickerKeepsNoDollar(symbol);
    StrikeRoundTrip(TickerOf(symbol), cents);
  }

  lemma {:induction false} MarketAt(symbol: string, price: real, offsets: seq<real>, i: nat)
    requires i < |offsets|
    ensures MarketsAt(symbol, price, offsets)[i] == SimMarket(symbol, i, StrikeCents(price, offsets[i]))
  {
  }

  /** The market at position `i` of a symbol: ids numbered by `i`, outcome "Yes". */
  lemma {:induction false} GeneratedMarketIds(symbol: string, price: real, offsets: seq<real>, i: nat)
    requires i < |offsets|
    ensures var m := MarketsAt(symbol, price, offsets)[i];
            && m.conditionId == "sim-" + symbol + "-" + NatToString(i)
            && m.tokenId == "sim-tok-" + symbol + "-" + NatToString(i)
            && m.outcome == "Yes" && m.symbol == symbol
  {
  }

  /**
   * The question of the market at position `i` reads back as the price
   * moved by the `i`-th offset, rounded to the cent.
   */
  lemma {:induction false} GeneratedMarketStrike(symbol: string, price: real, offsets: seq<real>, i: nat, cents: int)
    requires i < |offsets| && '$' !in symbol && cents == StrikeCents(price, offsets[i])
    ensures StrikeFromQuestion(MarketsAt(symbol, price, offsets)[i].question) == Some(cents as real / 100.0)
  {
    MarketAt(symbol, price, offsets, i);
    GeneratedStrike(symbol, i, cents);
  }

  /** How many digits end `s`. */
  function TrailingDigits(s: string): (n: nat)
    ensures n <= |s|
  {
    if |s| == 0 || !IsDigit(s[|s| - 1]) then 0 else 1 + TrailingDigits(s[..|s| - 1])
  }

  lemma {:induction false} TrailingDigitsAfterDash(a: string, d: string)
    requires AllDigits(d)
    ensures TrailingDigits(a + "-" + d) == |d|
    decreases |d|
  {
    var s := a + "-" + d;
    if |d| > 0 {
      assert s[|s| - 1] == d[|d| - 1];
      assert s[..|s| - 1] == a + "-" + d[..|d| - 1];
      TrailingDigitsAfterDash(a, d[..|d| - 1]);
    }
  }

  /** The number after the dash determines where the symbol ends: distinct (symbol, index) pairs give distinct ids. */
  lemma {:induction false} SimIdInjective(prefix: string, s1: string, i1: nat, s2: string, i2: nat)
    requires SimId(prefix, s1, i1) == SimId(prefix, s2, i2)
    ensures s1 == s2 && i1 == i2
  {
    var d1, d2 := NatToString(i1), NatToString(i2);
    var x := SimId(prefix, s1, i1);
    TrailingDigitsAfterDash(prefix + s1, d1);
    TrailingDigitsAfterDash(prefix + s2, d2);
    assert |d1| == |d2|;
    assert d1 == x[|x| - |d1|..] == d2;
    assert s1 == x[|prefix|..|x| - |d1| - 1] == s2;
    assert i1 == DigitsValue(d1) == i2;
  }

  /**
   * `max(1, int(lag / interval)) + 1`: the lag buffer's length, or None
   * where the division raises ZeroDivisionError.
   */
  function LagBufferLen(lagSeconds: real, interval: real): (r: Option<nat>)
    ensures r.Some? <==> interval != 0.0
    ensures r.Some? ==> r.value >= 2
    ensures r.Some? && lagSeconds / interval < 2.0 ==> r.value == 2
    ensures r.Some? && lagSeconds / interval >= 2.0 ==> r.value >= 3
  {
    if interval == 0.0 then None
    else
      var ticks := TruncToInt(lagSeconds / interval);
      Some((if ticks >= 1 then ticks else 1) + 1)
  }

  /**
   * A buffer of that length spans the lag: once it is full, its oldest
   * price is at least `lag` old and less than one interval more.
   */
  lemma {:induction false} LagBufferSpansLag(lagSeconds: real, interval: real)
    requires interval > 0.0 && lagSeconds >= interval
    ensures var n := LagBufferLen(lagSeconds, interval).value;
            (n - 1) as real * interval <= lagSeconds < n as real * interval
  {
    var q := lagSeconds / interval;
    assert q * interval == lagSeconds;
    assert (q - 1.0) * interval == lagSeconds - interval;
    NonNegativeFactor(q - 1.0, interval);
    var t := TruncToInt(q);
    assert t >= 1;
    var n := LagBufferLen(lagSeconds, interval).value;
    assert n == t + 1;
    ScaleBetween(t as real, q, interval);
    assert n as real * interval == (t as real + 1.0) * interval;
    assert (n - 1) as real * interval == t as real * interval;
    assert q * interval < n as real * interval;
    assert lagSeconds < n as real * interval;
  }

  lemma {:induction false} NonNegativeFactor(x: real, c: real)
    requires c > 0.0 && x * c >= 0.0
    ensures x >= 0.0
  {
  }

  lemma {:induction false} ScaleBetween(t: real, q: real, c: real)
    requires t <= q < t + 1.0 && c > 0.0
    ensures t * c <= q * c < (t + 1.0) * c
  {
    assert (q - t) * c >= 0.0;
    assert (t + 1.0 - q) * c > 0.0;
  }

  lemma {:induction false} LagBufferExample()
    ensures LagBufferLen(5.0, 1.0) == Some(6)
  {
  }

  /** One empty buffer per distinct symbol among the markets. */
  function NewBuffers(markets: seq<DiscoveredMarket>): (b: map<string, seq<real>>)
    ensures forall i :: 0 <= i < |markets| ==> markets[i].symbol in b
    ensures forall s :: s in b ==> |b[s]| == 0 && exists i :: 0 <= i < |markets| && markets[i].symbol == s
  {
    var symbols := set i | 0 <= i < |markets| :: markets[i].symbol;
    map s | s in symbols :: []
  }

  /** The price recorded for a symbol in a round: the feed's latest, else the known default, else none. */
  function PriceFor(latest: string -> Option<real>, symbol: string): Option<real> {
    if latest(symbol).Some? then latest(symbol) else KnownDefaultPrice(symbol)
  }

  predicate BuffersBounded(b: map<string, seq<real>>, cap: nat) {
    forall s :: s in b ==> |b[s]| <= cap
  }

  /** The first half of a round: each buffer appends its symbol's price, when there is one. */
  function RecordPrices(b: map<string, seq<real>>, latest: string -> Option<real>, cap: nat): (r: map<string, seq<real>>)
    requires BuffersBounded(b, cap)
    ensures r.Keys == b.Keys && BuffersBounded(r, cap)
  {
    map s | s in b :: if PriceFor(latest, s).Some? then PushBounded(b[s], PriceFor(latest, s).value, cap) else b[s]
  }

  /**
   * The lag: once a buffer has been sent at least `cap` prices, whatever
   * it held before, its first entry (the one priced) is the price appended
   * `cap - 1` appends before the newest.
   */
  lemma {:induction false} LaggedPrice(w: seq<real>, xs: seq<real>, cap: nat)
    requires |w| <= cap && |xs| >= cap > 0
    ensures var b := PushAll(w, xs, cap); |b| == cap && b[0] == xs[|xs| - cap]
  {
    PushAllKeepsNewest(w, xs, cap);
    var all := w + xs;
    assert all[|all| - cap] == xs[|xs| - cap];
  }

  /** `max(0.05, min(0.95, 0.5 + distance * 10 + noise))`. */
  function SimOdds(lagged: real, strike: real, noise: real): (r: real)
    requires strike != 0.0
    ensures 0.05 <= r <= 0.95
    ensures var raw := 0.5 + (lagged - strike) / strike * 10.0 + noise;
            (0.05 <= raw <= 0.95 ==> r == raw) && (raw < 0.05 ==> r == 0.05) && (raw > 0.95 ==> r == 0.95)
  {
    Clamp(0.5 + (lagged - strike) / strike * 10.0 + noise, 0.05, 0.95)
  }

  /** With a positive strike, a higher lagged price never gives lower odds. */
  lemma {:induction false} SimOddsMonotone(p1: real, p2: real, strike: real, noise: real)
    requires strike > 0.0 && p1 <= p2
    ensures SimOdds(p1, strike, noise) <= SimOdds(p2, strike, noise)
  {
    assert (p1 - strike) / strike <= (p2 - strike) / strike;
  }

  /** Without noise, a stale price below the strike reads bearish and one above reads bullish. */
  lemma {:induction false} SimOddsSide(lagged: real, strike: real)
    requires strike > 0.0
    ensures lagged < strike ==> SimOdds(lagged, strike, 0.0) < 0.5
    ensures lagged > strike ==> SimOdds(lagged, strike, 0.0) > 0.5
    ensures lagged == strike ==> SimOdds(lagged, strike, 0.0) == 0.5
  {
    if lagged < strike {
      assert (lagged - strike) / strike < 0.0;
    } else if lagged > strike {
      assert (lagged - strike) / strike > 0.0;
    }
  }

  /** What one market contributes to a round. */
  datatype MarketOutcome = Skipped | Crashed | Emitted(snapshot: OddsSnapshot)

  /**
   * The second half of a round for one market: no snapshot when the
   * strike does not parse or the buffer is missing or empty; a zero
   * strike divides by zero and ends the feed; otherwise the snapshot at
   * the rounded clamped odds.
   */
  function SnapshotOf(m: DiscoveredMarket, b: map<string, seq<real>>, noise: real): (r: MarketOutcome)
    ensures r.Emitted? ==> 0.05 <= r.snapshot.midpoint <= 0.95
    ensures r.Emitted? ==> r.snapshot.conditionId == m.conditionId && r.snapshot.tokenId == m.tokenId
                           && r.snapshot.symbol == m.symbol && r.snapshot.question == m.question
    ensures r.Crashed? <==> StrikeFromQuestion(m.question) == Some(0.0) && m.symbol in b && |b[m.symbol]| > 0
  {
    var strike := StrikeFromQuestion(m.question);
    if strike.None? then Skipped
    else if m.symbol !in b || |b[m.symbol]| == 0 then Skipped
    else if strike.value == 0.0 then Crashed
    else
      var odds := SimOdds(b[m.symbol][0], strike.value, noise);
      Round4Within(odds, 500, 9500);
      Emitted(OddsSnapshot(m.conditionId, m.tokenId, m.symbol, m.question, m.outcome, Round4(odds), 0.0))
  }

  datatype RoundResult = RoundResult(snapshots: seq<OddsSnapshot>, crashed: bool)

  /** The markets in order, one noise draw each, stopping at a crash. */
  function OddsRound(markets: seq<DiscoveredMarket>, b: map<string, seq<real>>, noises: seq<real>): (r: RoundResult)
    requires |noises| == |markets|
    ensures |r.snapshots| <= |markets|
    ensures forall i :: 0 <= i < |r.snapshots| ==> 0.05 <= r.snapshots[i].midpoint <= 0.95
  {
    if |markets| == 0 then RoundResult([], false)
    else
      match SnapshotOf(markets[0], b, noises[0])
      case Crashed => RoundResult([], true)
      case Skipped => OddsRound(markets[1..], b, noises[1..])
      case Emitted(s) =>
        var rest := OddsRound(markets[1..], b, noises[1..]);
        RoundResult([s] + rest.snapshots, rest.crashed)
  }
}
