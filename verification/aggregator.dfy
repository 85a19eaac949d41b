/**
 * The feed aggregator (feeds/feed_aggregator.py): markets indexed by
 * symbol, a last-write-wins cache of odds keyed by token id, and the
 * pairing of each price tick with the cached odds of every market of its
 * symbol. The two concurrent consumers are modelled as step functions
 * over one interleaved sequence of arrivals.
 */
module Aggregator {
  import opened Common
  import opened Schemas
  import opened Discovery

  /** A price tick paired with the latest odds of one market of the same symbol. */
  datatype PairedData = PairedData(tick: PriceTick, odds: OddsSnapshot)

  type MarketIndex = map<string, seq<DiscoveredMarket>>
  type OddsCache = map<string, OddsSnapshot>

  /** The markets of `ms` with the given symbol, in input order. */
  function MarketsOf(ms: seq<DiscoveredMarket>, symbol: string): seq<DiscoveredMarket> {
    if |ms| == 0 then []
    else MarketsOf(ms[..|ms| - 1], symbol) + (if ms[|ms| - 1].symbol == symbol then [ms[|ms| - 1]] else [])
  }

  /** `setdefault(m.symbol, []).append(m)`. */
  function AddMarket(idx: MarketIndex, m: DiscoveredMarket): MarketIndex {
    idx[m.symbol := (if m.symbol in idx then idx[m.symbol] else []) + [m]]
  }

  /** The constructor's indexing loop. */
  function BuildIndex(ms: seq<DiscoveredMarket>): MarketIndex {
    if |ms| == 0 then map[] else AddMarket(BuildIndex(ms[..|ms| - 1]), ms[|ms| - 1])
  }

  /** A symbol is indexed exactly when some market has it. */
  predicate HasSymbol(ms: seq<DiscoveredMarket>, symbol: string) {
    exists i :: 0 <= i < |ms| && ms[i].symbol == symbol
  }

  /**
   * The index groups the markets by symbol: a symbol is a key exactly when
   * some market carries it, and its list holds that symbol's markets in
   * input order.
   */
  lemma {:induction false} BuildIndexGroups(ms: seq<DiscoveredMarket>, symbol: string)
    ensures symbol in BuildIndex(ms) <==> HasSymbol(ms, symbol)
    ensures symbol in BuildIndex(ms) ==> BuildIndex(ms)[symbol] == MarketsOf(ms, symbol)
    ensures symbol !in BuildIndex(ms) ==> MarketsOf(ms, symbol) == []
  {
    if |ms| > 0 {
      var init := ms[..|ms| - 1];
      var m := ms[|ms| - 1];
      BuildIndexGroups(init, symbol);
      assert HasSymbol(ms, symbol) <==> HasSymbol(init, symbol) || m.symbol == symbol by {
        if HasSymbol(ms, symbol) {
          var i :| 0 <= i < |ms| && ms[i].symbol == symbol;
          if i < |ms| - 1 { assert init[i] == ms[i]; }
        }
        if HasSymbol(init, symbol) {
          var i :| 0 <= i < |init| && init[i].symbol == symbol;
          assert ms[i] == init[i];
        }
      }
    }
  }

  /** The markets registered for a symbol; none for an unknown symbol. */
  function MarketsFor(idx: MarketIndex, symbol: string): seq<DiscoveredMarket> {
    if symbol in idx then idx[symbol] else []
  }

  /** `_consume_odds`, one arrival: the snapshot replaces whatever was cached under its token id. */
  function OnOdds(cache: OddsCache, odds: OddsSnapshot): (r: OddsCache)
    ensures odds.tokenId in r && r[odds.tokenId] == odds
    ensures r.Keys == cache.Keys + {odds.tokenId}
    ensures forall t :: t in cache && t != odds.tokenId ==> r[t] == cache[t]
  {
    cache[odds.tokenId := odds]
  }

  /** Every cached snapshot sits under its own token id, as `OnOdds` stores it. */
  predicate CacheConsistent(cache: OddsCache) {
    forall t :: t in cache ==> cache[t].tokenId == t
  }

  /** Storing a snapshot keeps the cache consistent. */
  lemma {:induction false} OnOddsConsistent(cache: OddsCache, odds: OddsSnapshot)
    requires CacheConsistent(cache)
    ensures CacheConsistent(OnOdds(cache, odds))
  {
  }

  /** The markets whose token currently has cached odds, in order. */
  function CachedMarkets(markets: seq<DiscoveredMarket>, cache: OddsCache): seq<DiscoveredMarket> {
    if |markets| == 0 then []
    else (if markets[0].tokenId in cache then [markets[0]] else []) + CachedMarkets(markets[1..], cache)
  }

  /** The pairs for `markets`, in order: one per market whose token has cached odds. */
  function PairAll(markets: seq<DiscoveredMarket>, cache: OddsCache, tick: PriceTick): (r: seq<PairedData>)
    ensures |r| <= |markets|
    ensures forall i :: 0 <= i < |r| ==> r[i].tick == tick
    ensures (forall i :: 0 <= i < |markets| ==> markets[i].tokenId !in cache) ==> r == []
  {
    if |markets| == 0 then []
    else
      var t := markets[0].tokenId;
      var rest := PairAll(markets[1..], cache, tick);
      assert forall i :: 0 <= i < |markets[1..]| ==> markets[1..][i] == markets[i + 1];
      if t in cache then [PairedData(tick, cache[t])] + rest else rest
  }

  /**
   * Pairing is exactly one pair per market with cached odds, in market
   * order, each carrying the tick unchanged and that market's current
   * snapshot.
   */
  lemma {:induction false} PairAllExact(markets: seq<DiscoveredMarket>, cache: OddsCache, tick: PriceTick)
    ensures |PairAll(markets, cache, tick)| == |CachedMarkets(markets, cache)|
    ensures forall i :: 0 <= i < |PairAll(markets, cache, tick)| ==>
      CachedMarkets(markets, cache)[i].tokenId in cache &&
      PairAll(markets, cache, tick)[i] == PairedData(tick, cache[CachedMarkets(markets, cache)[i].tokenId])
  {
    if |markets| > 0 {
      PairAllExact(markets[1..], cache, tick);
      var t := markets[0].tokenId;
      if t in cache {
        var r := PairAll(markets, cache, tick);
        var c := CachedMarkets(markets, cache);
        forall i | 0 <= i < |r|
          ensures c[i].tokenId in cache && r[i] == PairedData(tick, cache[c[i].tokenId])
        {
          if i > 0 {
            assert r[i] == PairAll(markets[1..], cache, tick)[i - 1];
            assert c[i] == CachedMarkets(markets[1..], cache)[i - 1];
          }
        }
      }
    }
  }

  /** `_consume_prices`, one tick: the pairs emitted for it. */
  function OnTick(idx: MarketIndex, cache: OddsCache, tick: PriceTick): (r: seq<PairedData>)
    ensures tick.symbol !in idx ==> r == []
    ensures |r| <= |MarketsFor(idx, tick.symbol)|
  {
    PairAll(MarketsFor(idx, tick.symbol), cache, tick)
  }

  /** One arrival on either queue. */
  datatype Arrival = OddsArrived(odds: OddsSnapshot) | TickArrived(tick: PriceTick)

  /** The aggregator's state after a run of arrivals, and every pair emitted so far. */
  datatype RunState = RunState(cache: OddsCache, emitted: seq<PairedData>)

  /** Both consumers over one interleaving of arrivals, oldest first. */
  function Run(idx: MarketIndex, cache: OddsCache, arrivals: seq<Arrival>): RunState {
    if |arrivals| == 0 then RunState(cache, [])
    else
      var prev := Run(idx, cache, arrivals[..|arrivals| - 1]);
      match arrivals[|arrivals| - 1]
      case OddsArrived(o) => RunState(OnOdds(prev.cache, o), prev.emitted)
      case TickArrived(t) => RunState(prev.cache, prev.emitted + OnTick(idx, prev.cache, t))
  }

  /** The newest snapshot for token `t` among the arrivals, if any arrived. */
  function LastOdds(arrivals: seq<Arrival>, t: string): Option<OddsSnapshot> {
    if |arrivals| == 0 then None
    else
      var a := arrivals[|arrivals| - 1];
      if a.OddsArrived? && a.odds.tokenId == t then Some(a.odds)
      else LastOdds(arrivals[..|arrivals| - 1], t)
  }

  /**
   * Last write wins, and price ticks never touch the cache: after any run
   * the entry for a token is the newest snapshot that arrived for it, or
   * the initial entry when none did.
   */
  lemma {:induction false} RunLastWriteWins(idx: MarketIndex, cache: OddsCache, arrivals: seq<Arrival>, t: string)
    ensures LastOdds(arrivals, t).Some? ==>
      t in Run(idx, cache, arrivals).cache && Run(idx, cache, arrivals).cache[t] == LastOdds(arrivals, t).value
    ensures LastOdds(arrivals, t).None? ==>
      (t in Run(idx, cache, arrivals).cache <==> t in cache) &&
      (t in cache ==> Run(idx, cache, arrivals).cache[t] == cache[t])
  {
    if |arrivals| > 0 {
      RunLastWriteWins(idx, cache, arrivals[..|arrivals| - 1], t);
    }
  }

  /** Only ticks emit, and a run of odds arrivals alone emits nothing. */
  lemma {:induction false} RunOddsOnlyEmitsNothing(idx: MarketIndex, cache: OddsCache, arrivals: seq<Arrival>)
    requires forall i :: 0 <= i < |arrivals| ==> arrivals[i].OddsArrived?
    ensures Run(idx, cache, arrivals).emitted == []
  {
    if |arrivals| > 0 {
      RunOddsOnlyEmitsNothing(idx, cache, arrivals[..|arrivals| - 1]);
    }
  }

  /** A run from a consistent cache leaves a consistent cache, so every emitted pair's odds belong to the paired market's token. */
  lemma {:induction false} RunConsistent(idx: MarketIndex, cache: OddsCache, arrivals: seq<Arrival>)
    requires CacheConsistent(cache)
    ensures CacheConsistent(Run(idx, cache, arrivals).cache)
  {
    if |arrivals| > 0 {
      RunConsistent(idx, cache, arrivals[..|arrivals| - 1]);
    }
  }
}
